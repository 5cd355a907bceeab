/** RC4 and WEP encapsulation, on values. */
module WepSpec {
  import opened AesTables
  import opened BlockCipher
  import opened FcsTable
  import opened Modular

  function Val(b: bv8): Byte { b as int }

  function Vals(b: seq<bv8>): (v: seq<Byte>)
    ensures |v| == |b|
  {
    seq(|b|, i requires 0 <= i < |b| => Val(b[i]))
  }

  // ------------------------------------------------------------- RC4

  datatype Rc4 = Rc4(s: seq<Byte>, x: Byte, y: Byte)

  /** 256 distinct bytes: every byte once. */
  ghost predicate Permutation(s: seq<Byte>) {
    |s| == 256 && forall i, j :: 0 <= i < j < 256 ==> s[i] != s[j]
  }

  function Swap(s: seq<Byte>, i: Byte, j: Byte): (t: seq<Byte>)
    requires |s| == 256
    ensures |t| == 256
  {
    s[i := s[j]][j := s[i]]
  }

  lemma SwapKeeps(s: seq<Byte>, i: Byte, j: Byte)
    requires Permutation(s)
    ensures Permutation(Swap(s, i, j))
  {
  }

  /** Key scheduling after i rounds: the state and the running index. */
  function Scheduled(key: seq<Byte>, i: nat): (r: (seq<Byte>, Byte))
    requires key != [] && i <= 256
    ensures |r.0| == 256
  {
    if i == 0 then (seq(256, k requires 0 <= k < 256 => k as Byte), 0)
    else
      var (s, j) := Scheduled(key, i - 1);
      var k: Byte := (j as int + key[(i - 1) % |key|] as int + s[i - 1] as int) % 256;
      (Swap(s, i - 1, k), k)
  }

  function Init(key: seq<Byte>): (c: Rc4)
    requires key != []
    ensures |c.s| == 256
  {
    Rc4(Scheduled(key, 256).0, 0, 0)
  }

  lemma {:induction false} ScheduleKeeps(key: seq<Byte>, i: nat)
    requires key != [] && i <= 256
    ensures Permutation(Scheduled(key, i).0)
  {
    if i > 0 {
      ScheduleKeeps(key, i - 1);
      var (s, j) := Scheduled(key, i - 1);
      SwapKeeps(s, i - 1, (j + key[(i - 1) % |key|] + s[i - 1]) % 256);
    }
  }

  lemma ScheduleNext(key: seq<Byte>, i: nat)
    requires key != [] && i < 256
    ensures var (s, j) := Scheduled(key, i);
            var k: Byte := (j as int + key[i % |key|] as int + s[i] as int) % 256;
            Scheduled(key, i + 1) == (Swap(s, i, k), k)
  {
  }

  /** Repeating the key changes nothing. */
  lemma {:induction false} RepeatedKey(key: seq<Byte>, i: nat)
    requires key != [] && i <= 256
    ensures Scheduled(key + key, i) == Scheduled(key, i)
  {
    if i == 0 {
    } else {
      hide Scheduled, Swap;
      RepeatedKey(key, i - 1);
      RepeatedAt(key, i - 1);
      ScheduleNext(key, i - 1);
      ScheduleNext(key + key, i - 1);
    }
  }

  lemma RepeatedAt(key: seq<Byte>, i: nat)
    requires key != []
    ensures (key + key)[i % |key + key|] == key[i % |key|]
  {
    HalfRemainder(|key|, i);
  }

  lemma HalfRemainder(n: nat, i: nat)
    requires n > 0
    ensures i % n == if i % (2 * n) < n then i % (2 * n) else i % (2 * n) - n
  {
    var q, m := Divided(i, 2 * n);
    RemainderOf(n, q, m, i);
  }

  lemma Divided(i: nat, d: nat) returns (q: nat, m: nat)
    requires d > 0
    ensures i == d * q + m && m < d && m == i % d
  {
    q, m := i / d, i % d;
  }

  lemma RemainderOf(n: nat, q: nat, m: nat, i: nat)
    requires n > 0 && i == (2 * n) * q + m && m < 2 * n
    ensures i % n == if m < n then m else m - n
  {
    assert (2 * n) * q == n * (2 * q);
    if m < n {
      RemainderIs(n, 2 * q, m);
    } else {
      assert n * (2 * q + 1) == n * (2 * q) + n;
      RemainderIs(n, 2 * q + 1, m - n);
    }
  }

  /** One round of the key schedule: the index moves by the entry and the key byte, and the two entries
      change places. */
  lemma RoundIs(key: seq<Byte>, i: nat)
    requires key != [] && i < 256
    ensures var (s, j) := Scheduled(key, i); var (t, k) := Scheduled(key, i + 1);
            && k == (j as int + s[i] as int + key[i % |key|] as int) % 256
            && t[i] == s[k] && t[k] == s[i] && forall m :: 0 <= m < 256 && m != i && m != k ==> t[m] == s[m]
  {
  }

  /** The schedule starts from the identity, and the key stream from its 256th round with both indices 0. */
  lemma StartsInOrder(key: seq<Byte>, i: Byte)
    requires key != []
    ensures Scheduled(key, 0).0[i] == i && Scheduled(key, 0).1 == 0
    ensures Init(key).s == Scheduled(key, 256).0 && Init(key).x == Init(key).y == 0
  {
  }

  /** The context after one more keystream byte. */
  function Next(c: Rc4): (n: Rc4)
    requires |c.s| == 256
    ensures |n.s| == 256
  {
    var x: Byte := (c.x + 1) % 256;
    var y: Byte := (c.s[x] + c.y) % 256;
    Rc4(Swap(c.s, x, y), x, y)
  }

  /** The keystream byte that step produces. */
  function Output(c: Rc4): Byte
    requires |c.s| == 256
  {
    var n := Next(c);
    var sum: int := n.s[n.x] as int + n.s[n.y] as int;
    n.s[sum % 256]
  }

  function After(c: Rc4, n: nat): (a: Rc4)
    requires |c.s| == 256
    ensures |a.s| == 256
  {
    if n == 0 then c else Next(After(c, n - 1))
  }

  /** The textbook step: i moves on by one and j by the entry at i, the two entries change places, and the
      output is the entry their sum points at. */
  lemma NextIs(c: Rc4)
    requires |c.s| == 256
    ensures var n := Next(c); var i, j := (c.x + 1) % 256, (c.y + c.s[(c.x + 1) % 256]) % 256;
            && n.x == i && n.y == j && n.s[i] == c.s[j] && n.s[j] == c.s[i]
            && (forall k :: 0 <= k < 256 && k != i && k != j ==> n.s[k] == c.s[k])
            && Output(c) == n.s[(c.s[i] as int + c.s[j] as int) % 256]
  {
  }

  /** The context before a step. */
  function Before(n: Rc4): Rc4
    requires |n.s| == 256
  {
    Rc4(Swap(n.s, n.x, n.y), (n.x + 255) % 256, (n.y + 256 - n.s[n.y]) % 256)
  }

  /** A step can be undone: no two contexts have the same successor. */
  lemma NextUndone(c: Rc4)
    requires |c.s| == 256
    ensures Before(Next(c)) == c
  {
    hide Swap;
    var n := Next(c);
    NextIs(c);
    SwapTwice(c.s, n.x, n.y);
    BackAndForth(c.x, 1);
    BackAndForth(c.y, c.s[n.x]);
  }

  lemma BackAndForth(y: Byte, s: Byte)
    ensures ((y as int + s as int) % 256 + 256 - s) % 256 == y
  {
  }

  lemma SwapTwice(s: seq<Byte>, i: Byte, j: Byte)
    requires |s| == 256
    ensures Swap(Swap(s, i, j), i, j) == s
  {
  }

  /** However many bytes are drawn, the state stays a permutation. */
  lemma {:induction false} AlwaysPermutation(key: seq<Byte>, n: nat)
    requires key != []
    ensures Permutation(After(Init(key), n).s)
  {
    hide Scheduled;
    if n == 0 {
      ScheduleKeeps(key, 256);
    } else {
      AlwaysPermutation(key, n - 1);
      var c := After(Init(key), n - 1);
      SwapKeeps(c.s, (c.x + 1) % 256, (c.s[(c.x + 1) % 256] + c.y) % 256);
    }
  }

  // ------------------------------------------------------------- the stream cipher

  function Crypt(c: Rc4, d: seq<bv8>): (e: seq<bv8>)
    requires |c.s| == 256
    ensures |e| == |d|
  {
    if d == [] then [] else Crypt(c, d[..|d| - 1]) + [Xor(d[|d| - 1], ToByte(Output(After(c, |d| - 1))))]
  }

  /** Decryption is encryption. */
  lemma {:induction false} CryptTwice(c: Rc4, d: seq<bv8>)
    requires |c.s| == 256
    ensures Crypt(c, Crypt(c, d)) == d
  {
    hide Xor, ToByte, Output, After;
    if d != [] {
      var i := |d| - 1;
      CryptTwice(c, d[..i]);
      XorTwice(d[i], ToByte(Output(After(c, i))));
      assert Crypt(c, d)[..i] == Crypt(c, d[..i]);
      assert d == d[..i] + [d[i]];
    }
  }

  lemma {:induction false} AfterSum(c: Rc4, m: nat, n: nat)
    requires |c.s| == 256
    ensures After(After(c, m), n) == After(c, m + n)
  {
    hide Next;
    if n > 0 {
      AfterSum(c, m, n - 1);
    }
  }

  /** A run of calls encrypts like one call on the concatenation. */
  lemma {:induction false} CryptAppend(c: Rc4, a: seq<bv8>, b: seq<bv8>)
    requires |c.s| == 256
    ensures Crypt(c, a + b) == Crypt(c, a) + Crypt(After(c, |a|), b)
    decreases |b|
  {
    hide Xor, ToByte, Output, After;
    if b == [] {
      assert a + b == a;
    } else {
      var i := |b| - 1;
      CryptAppend(c, a, b[..i]);
      assert (a + b)[..|a + b| - 1] == a + b[..i];
      AfterSum(c, |a|, i);
    }
  }

  // ------------------------------------------------------------- encapsulation

  function ByteAt(f: bv32, i: nat): bv8
    requires i < 4
  {
    if i == 0 then (f & 0xff) as bv8 else if i == 1 then ((f >> 8) & 0xff) as bv8
    else if i == 2 then ((f >> 16) & 0xff) as bv8 else (f >> 24) as bv8
  }

  /** A word as it lies in little-endian memory. */
  function WordBytes(f: bv32): seq<bv8> { [ByteAt(f, 0), ByteAt(f, 1), ByteAt(f, 2), ByteAt(f, 3)] }

  function BytesWord(a: bv8, b: bv8, c: bv8, d: bv8): bv32 {
    (a as bv32) | ((b as bv32) << 8) | ((c as bv32) << 16) | ((d as bv32) << 24)
  }

  lemma WordRoundTrip(f: bv32)
    ensures BytesWord(ByteAt(f, 0), ByteAt(f, 1), ByteAt(f, 2), ByteAt(f, 3)) == f
  {
  }

  lemma BytesRoundTrip(a: bv8, b: bv8, c: bv8, d: bv8)
    ensures var f := BytesWord(a, b, c, d);
            ByteAt(f, 0) == a && ByteAt(f, 1) == b && ByteAt(f, 2) == c && ByteAt(f, 3) == d
  {
  }

  function Complement(f: bv32): bv32 { f ^ 0xffff_ffff }

  /** The integrity check value of a payload. */
  function Icv(p: seq<bv8>): (v: seq<bv8>)
    ensures |v| == 4
  {
    WordBytes(Complement(Crc32(0xffff_ffff, p)))
  }

  /** The CRC-32 of the empty message is 0 and that of a zero byte 0xd202ef8d, stored low byte first. */
  lemma IcvVectors()
    ensures Icv([]) == [0x00, 0x00, 0x00, 0x00]
    ensures Icv([0x00]) == [0x8d, 0xef, 0x02, 0xd2]
  {
    FirstByte(0xffff_ffff, 0x00);
    ZeroByteStep();
  }

  lemma FirstByte(f: bv32, b: bv8)
    ensures Crc32(f, []) == f && Crc32(f, [b]) == ByteStep(XorWord(f, b as bv32))
  {
    hide ByteStep, XorWord;
    assert [b][..0] == [];
  }

  lemma ZeroByteStep()
    ensures ByteStep(XorWord(0xffff_ffff, 0)) == 0x2dfd_1072
  {
  }

  function KeyIdByte(keyId: bv8): bv8 { keyId << 6 }

  function KeyIndex(b: bv8): bv8 { (b & 0xc0) >> 6 }

  lemma KeyIdRoundTrip(keyId: bv8)
    requires keyId < 4
    ensures KeyIndex(KeyIdByte(keyId)) == keyId
  {
  }

  lemma KeyIndexBound(b: bv8)
    ensures Val(KeyIndex(b)) < 4
  {
    var x := KeyIndex(b);
    assert x == 0 || x == 1 || x == 2 || x == 3;
  }

  /** The group key a key-id byte selects. */
  function KeyOf(keys: seq<seq<bv8>>, b: bv8): seq<bv8>
    requires |keys| == 4
  {
    KeyIndexBound(b);
    keys[Val(KeyIndex(b))]
  }

  /** The RC4 context for a vector and a key. */
  function Keyed(iv: seq<bv8>, key: seq<bv8>): (c: Rc4)
    requires iv != []
    ensures |c.s| == 256
  {
    Init(Vals(iv + key))
  }

  /** What follows the 802.11 header of a WEP frame: vector, key-id byte, encrypted payload and ICV. */
  function Seal(key: seq<bv8>, iv: seq<bv8>, id: bv8, p: seq<bv8>): (b: seq<bv8>)
    requires |iv| == 3
    ensures |b| == |p| + 8
  {
    iv + [id] + Crypt(Keyed(iv, key), p + Icv(p))
  }

  /** Payload and ICV of a frame body, decrypted. */
  function Opened(key: seq<bv8>, b: seq<bv8>): (m: seq<bv8>)
    requires |b| >= 8
    ensures |m| == |b| - 4
  {
    Crypt(Keyed(b[..3], key), b[4..])
  }

  /** The decrypted ICV is the one of the decrypted payload. */
  predicate Accepts(key: seq<bv8>, b: seq<bv8>)
    requires |b| >= 8
  {
    var m := Opened(key, b);
    m[|m| - 4..] == Icv(m[..|m| - 4])
  }

  lemma OpenSeal(key: seq<bv8>, iv: seq<bv8>, id: bv8, p: seq<bv8>)
    requires |iv| == 3
    ensures var b := Seal(key, iv, id, p); Opened(key, b) == p + Icv(p) && Accepts(key, b)
  {
    hide Keyed, Icv, Crypt;
    var b := Seal(key, iv, id, p);
    var e := Crypt(Keyed(iv, key), p + Icv(p));
    assert b[..3] == iv && b[4..] == e;
    CryptTwice(Keyed(iv, key), p + Icv(p));
    var m := p + Icv(p);
    assert m[..|m| - 4] == p && m[|m| - 4..] == Icv(p);
  }

  /** Decryption accepts exactly the sealed bodies, whatever the reserved bits of the key-id byte. */
  lemma AcceptsSealed(key: seq<bv8>, b: seq<bv8>)
    requires |b| >= 8
    ensures Accepts(key, b) <==> exists p :: b == Seal(key, b[..3], b[3], p)
  {
    hide Keyed, Icv, Crypt;
    if Accepts(key, b) {
      var m := Opened(key, b);
      var p := m[..|m| - 4];
      assert m == p + Icv(p);
      CryptTwice(Keyed(b[..3], key), b[4..]);
      assert b == b[..3] + [b[3]] + b[4..];
      assert b == Seal(key, b[..3], b[3], p);
    }
    forall p | b == Seal(key, b[..3], b[3], p)
      ensures Accepts(key, b)
    {
      OpenSeal(key, b[..3], b[3], p);
    }
  }
}

/** ARCFOURCONTEXT and the WEP engine of common/rtmp_wep.c. */
module Wep {
  import opened AesTables
  import opened BlockCipher
  import opened FcsTable
  import opened Modular
  import opened Sequences
  import opened WepSpec

  class ArcFour {
    const state: array<Byte>
    var x: Byte
    var y: Byte

    ghost function View(): (c: Rc4)
      reads this, state
    {
      Rc4(state[..], x, y)
    }

    constructor ()
      ensures fresh(state) && state.Length == 256
    {
      state := new Byte[256];
      x, y := 0, 0;
    }

    /** ARCFOUR_INIT */
    method Init(key: seq<Byte>)
      requires state.Length == 256 && key != []
      modifies this, state
      ensures View() == WepSpec.Init(key)
    {
      hide Scheduled;
      x, y := 0, 0;
      for counter := 0 to 256
        invariant x == y == 0 && forall k :: 0 <= k < counter ==> state[k] == k
      {
        state[counter] := counter;
      }
      ScheduleStart(key, state[..]);
      Schedule(key);
    }

    /** The key scheduling loop. */
    method Schedule(key: seq<Byte>)
      requires state.Length == 256 && key != [] && (state[..], 0) == Scheduled(key, 0)
      modifies state
      ensures state[..] == Scheduled(key, 256).0
    {
      hide Scheduled;
      var keyindex: nat, stateindex: Byte := 0, 0;
      for counter := 0 to 256
        invariant keyindex == counter % |key|
        invariant (state[..], stateindex) == Scheduled(key, counter)
      {
        ghost var s := state[..];
        ScheduleNext(key, counter);
        var t := state[counter];
        stateindex := (stateindex as int + key[keyindex] as int + t as int) % 256;
        var u := state[stateindex];
        state[stateindex] := t;
        state[counter] := u;
        assert state[..] == Swap(s, counter, stateindex);
        NextIndex(keyindex, counter, |key|);
        keyindex := keyindex + 1;
        if keyindex >= |key| {
          keyindex := 0;
        }
      }
    }

    /** ARCFOUR_BYTE */
    method NextByte() returns (b: Byte)
      requires state.Length == 256
      modifies this, state
      ensures View() == Next(old(View())) && b == Output(old(View()))
    {
      ghost var s := state[..];
      var nx: Byte := (x + 1) % 256;
      var sx := state[nx];
      var ny: Byte := (sx + y) % 256;
      var sy := state[ny];
      x, y := nx, ny;
      state[ny] := sx;
      state[nx] := sy;
      assert state[..] == Swap(s, nx, ny);
      var sum: int := sx as int + sy as int;
      b := state[sum % 256];
    }

    /** ARCFOUR_ENCRYPT and ARCFOUR_DECRYPT, from src at `from` to dest at `to`. In place, the output
        may run behind the input: the result is that of separate buffers. */
    method Process(dest: array<bv8>, to: nat, src: array<bv8>, from: nat, len: nat)
      requires state.Length == 256 && to + len <= dest.Length && from + len <= src.Length
      requires dest != src || to <= from
      requires dest as object != state as object && src as object != state as object
      modifies this, state, dest
      ensures View() == After(old(View()), len)
      ensures dest[to..to + len] == Crypt(old(View()), old(src[from..from + len]))
      ensures forall j :: 0 <= j < dest.Length && !(to <= j < to + len) ==> dest[j] == old(dest[j])
    {
      hide Next, Output, Xor, ToByte, After, Crypt;
      Nothing(View());
      ghost var c, d := View(), src[from..from + len];
      for i := 0 to len
        invariant View() == After(c, i)
        invariant dest[to..to + i] == Crypt(c, d[..i])
        invariant forall j :: i <= j < len ==> src[from + j] == d[j]
        invariant forall j :: 0 <= j < dest.Length && !(to <= j < to + i) ==> dest[j] == old(dest[j])
      {
        OneMore(c, d, i);
        var b := NextByte();
        ghost var v := View();
        dest[to + i] := Xor(src[from + i], ToByte(b));
        assert View() == v;
        assert dest[to..to + i + 1] == dest[to..to + i] + [dest[to + i]];
      }
      assert d[..len] == d;
    }
  }

  lemma Nothing(c: Rc4)
    requires |c.s| == 256
    ensures After(c, 0) == c && Crypt(c, []) == []
  {
  }

  lemma OneMore(c: Rc4, d: seq<bv8>, i: nat)
    requires |c.s| == 256 && i < |d|
    ensures After(c, i + 1) == Next(After(c, i))
    ensures Crypt(c, d[..i + 1]) == Crypt(c, d[..i]) + [Xor(d[i], ToByte(Output(After(c, i))))]
  {
    hide Next, Output, Xor, ToByte;
    assert d[..i + 1][..i] == d[..i];
  }

  lemma ScheduleStart(key: seq<Byte>, s: seq<Byte>)
    requires key != [] && |s| == 256 && forall k :: 0 <= k < 256 ==> s[k] == k
    ensures (s, 0) == Scheduled(key, 0)
  {
    assert s == Scheduled(key, 0).0;
  }

  lemma NextIndex(k: nat, counter: nat, n: nat)
    requires n > 0 && k == counter % n
    ensures (counter + 1) % n == if k + 1 >= n then 0 else k + 1
  {
    var q := counter / n;
    assert counter + 1 == n * q + (k + 1);
    if k + 1 >= n {
      assert counter + 1 == n * (q + 1) + 0;
      RemainderIs(n, q + 1, 0);
    } else {
      RemainderIs(n, q, k + 1);
    }
  }

  class Engine {
    const arc: ArcFour
    var fcs: bv32

    /** The context is allocated, and the buffer is not part of it. */
    ghost predicate Ready(buffer: array<bv8>) {
      arc.state.Length == 256 && buffer as object != arc.state as object
    }

    /** m has been encrypted since the engine was keyed. */
    ghost predicate Running(iv: seq<bv8>, key: seq<bv8>, m: seq<bv8>)
      reads this, arc, arc.state
      requires iv != []
    {
      arc.View() == After(Keyed(iv, key), |m|) && fcs == Crc32(0xffff_ffff, m)
    }

    constructor ()
      ensures fresh(arc) && fresh(arc.state) && arc.state.Length == 256
    {
      arc := new ArcFour();
      fcs := 0;
    }

    /** RTMPInitWepEngine; random holds the three bytes RandomByte gives. With CKIP the vector is the
        start of the key, and the rest of the key is what is keyed with it. */
    method Start(key: seq<bv8>, keyId: bv8, random: seq<bv8>, ckip: bool, dest: array<bv8>, at: nat)
      requires |random| == 3 && at + 4 <= dest.Length && Ready(dest) && if ckip then |key| >= 3 else |key| <= 13
      modifies this, arc, arc.state, dest
      ensures if ckip then Running(key[..3], key[3..], []) else Running(random, key, [])
      ensures dest[at..at + 4] == (if ckip then key[..3] else random) + [KeyIdByte(keyId)]
      ensures forall j :: 0 <= j < dest.Length && !(at <= j < at + 4) ==> dest[j] == old(dest[j])
    {
      hide WepSpec.Init, Vals;
      fcs := 0xffff_ffff;
      var iv := random;
      if ckip {
        arc.Init(Vals(key));
        iv := key[..3];
        assert key == key[..3] + key[3..];
        Nothing(Keyed(iv, key[3..]));
      } else {
        arc.Init(Vals(random + key));
        Nothing(Keyed(iv, key));
      }
      dest[at], dest[at + 1], dest[at + 2] := iv[0], iv[1], iv[2];
      dest[at + 3] := KeyIdByte(keyId);
      assert dest[at..at + 4] == [iv[0], iv[1], iv[2], dest[at + 3]];
    }

    /** RTMPEncryptData */
    method EncryptData(src: array<bv8>, dest: array<bv8>, at: nat, len: nat, ghost iv: seq<bv8>, ghost key: seq<bv8>,
        ghost m: seq<bv8>)
      requires iv != [] && len <= src.Length && at + len <= dest.Length && dest != src && Ready(dest) && Ready(src)
      requires Running(iv, key, m)
      modifies this, arc, arc.state, dest
      ensures Running(iv, key, m + src[..len])
      ensures Crypt(Keyed(iv, key), m) + dest[at..at + len] == Crypt(Keyed(iv, key), m + src[..len])
      ensures forall j :: 0 <= j < dest.Length && !(at <= j < at + len) ==> dest[j] == old(dest[j])
    {
      hide Keyed, Crypt, After, Crc32;
      ghost var c, d := Keyed(iv, key), src[..len];
      CrcAppend(0xffff_ffff, m, d);
      fcs := CalcFcs32(fcs, src[..len]);
      CryptAppend(c, m, d);
      AfterSum(c, |m|, len);
      assert src[0..0 + len] == d;
      arc.Process(dest, at, src, 0, len);
    }

    /** RTMPSetICV */
    method SetIcv(dest: array<bv8>, at: nat, ghost iv: seq<bv8>, ghost key: seq<bv8>, ghost m: seq<bv8>)
      requires iv != [] && at + 4 <= dest.Length && Ready(dest) && Running(iv, key, m)
      modifies this, arc, arc.state, dest
      ensures Crypt(Keyed(iv, key), m) + dest[at..at + 4] == Crypt(Keyed(iv, key), m + Icv(m))
      ensures forall j :: 0 <= j < dest.Length && !(at <= j < at + 4) ==> dest[j] == old(dest[j])
    {
      hide Keyed, Crypt, After, Crc32, ByteAt;
      fcs := Complement(fcs);
      var w := WordBytes(fcs);
      var word := new bv8[4](i requires 0 <= i < 4 => w[i]);
      assert word[0..0 + 4] == Icv(m);
      CryptAppend(Keyed(iv, key), m, Icv(m));
      arc.Process(dest, at, word, 0, 4);
    }

    /** RTMPSoftDecryptWEP on a frame of cnt bytes with a 24-byte header; keys are the four group keys,
        an empty one being a KeyLen of 0. The body is decrypted four bytes towards the header, where
        the vector was; the last four bytes of the frame stay as they were. */
    method SoftDecrypt(data: array<bv8>, cnt: nat, keys: seq<seq<bv8>>) returns (ok: bool)
      requires 28 <= data.Length && |keys| == 4 && Ready(data)
      requires KeyOf(keys, data[27]) != [] ==> 32 <= cnt <= data.Length && |KeyOf(keys, data[27])| <= 13
      modifies arc, arc.state, data
      ensures var key := KeyOf(keys, old(data[27]));
              if key == [] then !ok && data[..] == old(data[..])
              else
                var b := old(data[24..cnt]);
                data[24..cnt - 4] == Opened(key, b) && (ok <==> Accepts(key, b))
      ensures forall j :: 0 <= j < data.Length && !(24 <= j < cnt - 4) ==> data[j] == old(data[j])
    {
      hide Opened, KeyOf, Icv;
      var key := KeyOf(keys, data[27]);
      if key == [] {
        return false;
      }
      ghost var b := data[24..cnt];
      DecryptBody(data, cnt, key);
      ghost var m := data[24..cnt - 4];
      ok := CheckTrail(data, cnt);
      SliceOfSlice(data[..], 24, cnt - 4, 0, cnt - 32);
      SliceOfSlice(data[..], 24, cnt - 4, cnt - 32, cnt - 28);
      assert m == data[..][24..cnt - 4] && m[0..|m| - 4] == m[..|m| - 4];
    }

    /** Keying from the vector in the frame, and the overlapping decryption. */
    method DecryptBody(data: array<bv8>, cnt: nat, key: seq<bv8>)
      requires 32 <= cnt <= data.Length && Ready(data)
      modifies arc, arc.state, data
      ensures data[24..cnt - 4] == Opened(key, old(data[24..cnt]))
      ensures forall j :: 0 <= j < data.Length && !(24 <= j < cnt - 4) ==> data[j] == old(data[j])
    {
      hide Keyed, Crypt, WepSpec.Init, Vals;
      ghost var b := data[24..cnt];
      var iv := data[24..27];
      assert iv == b[..3] && data[28..28 + (cnt - 28)] == b[4..];
      KeyedIs(iv, key);
      arc.Init(Vals(iv + key));
      arc.Process(data, 24, data, 28, cnt - 28);
    }
  }

  /** The comparison of the trailing word with the complemented checksum. */
  method CheckTrail(data: array<bv8>, cnt: nat) returns (ok: bool)
    requires 32 <= cnt <= data.Length
    ensures ok <==> data[cnt - 8..cnt - 4] == Icv(data[24..cnt - 8])
  {
    hide Icv, Crc32, BytesWord, Complement;
    var trail := BytesWord(data[cnt - 8], data[cnt - 7], data[cnt - 6], data[cnt - 5]);
    var crc := CalcFcs32(0xffff_ffff, data[24..cnt - 8]);
    TrailTest(data[cnt - 8..cnt - 4], data[24..cnt - 8]);
    ok := Complement(crc) == trail;
  }

  lemma KeyedIs(iv: seq<bv8>, key: seq<bv8>)
    requires iv != []
    ensures WepSpec.Init(Vals(iv + key)) == Keyed(iv, key)
  {
  }

  /** Comparing the trailing word is comparing the trailing bytes. */
  lemma TrailTest(t: seq<bv8>, p: seq<bv8>)
    requires |t| == 4
    ensures t == Icv(p) <==> BytesWord(t[0], t[1], t[2], t[3]) == Complement(Crc32(0xffff_ffff, p))
  {
    hide BytesWord, ByteAt, Complement, Crc32;
    WordRoundTrip(Complement(Crc32(0xffff_ffff, p)));
    BytesRoundTrip(t[0], t[1], t[2], t[3]);
  }

  /** A payload encrypted piece by piece is encrypted as a whole. */
  method EncryptPieces(engine: Engine, frame: array<bv8>, chunks: seq<seq<bv8>>, iv: seq<bv8>, key: seq<bv8>)
    requires |iv| == 3 && engine.Ready(frame) && frame.Length >= 28 + |Concat(chunks)| && engine.Running(iv, key, [])
    modifies engine, engine.arc, engine.arc.state, frame
    ensures engine.Running(iv, key, Concat(chunks))
    ensures frame[28..28 + |Concat(chunks)|] == Crypt(Keyed(iv, key), Concat(chunks))
    ensures forall j :: 0 <= j < frame.Length && !(28 <= j < 28 + |Concat(chunks)|) ==> frame[j] == old(frame[j])
  {
    hide Keyed, Crypt, Engine.Running, Concat;
    var at := 28;
    ghost var m := Concat(chunks[..0]);
    NoPieces(Keyed(iv, key), chunks);
    for i := 0 to |chunks|
      invariant m == Concat(chunks[..i]) && at == 28 + |m| && |m| <= |Concat(chunks)|
      invariant engine.Running(iv, key, m)
      invariant frame[28..at] == Crypt(Keyed(iv, key), m)
      invariant forall j :: 0 <= j < frame.Length && !(28 <= j < at) ==> frame[j] == old(frame[j])
    {
      ConcatNext(chunks, i);
      ConcatPrefix(chunks, i + 1);
      at, m := EncryptPiece(engine, frame, at, chunks[i], iv, key, m);
    }
    assert chunks[..|chunks|] == chunks;
  }

  lemma NoPieces(c: Rc4, chunks: seq<seq<bv8>>)
    requires |c.s| == 256
    ensures Concat(chunks[..0]) == [] && Crypt(c, []) == []
  {
  }

  method EncryptPiece(engine: Engine, frame: array<bv8>, at: nat, c: seq<bv8>, iv: seq<bv8>, key: seq<bv8>,
      ghost m: seq<bv8>)
    returns (next: nat, ghost m': seq<bv8>)
    requires |iv| == 3 && engine.Ready(frame) && at == 28 + |m| && at + |c| <= frame.Length &&
             engine.Running(iv, key, m)
    requires frame[28..at] == Crypt(Keyed(iv, key), m)
    modifies engine, engine.arc, engine.arc.state, frame
    ensures next == at + |c| && m' == m + c && engine.Running(iv, key, m')
    ensures frame[28..next] == Crypt(Keyed(iv, key), m')
    ensures forall j :: 0 <= j < frame.Length && !(at <= j < next) ==> frame[j] == old(frame[j])
  {
    hide Keyed, Crypt, Engine.Running;
    var src := new bv8[|c|](i requires 0 <= i < |c| => c[i]);
    assert src[..|c|] == c;
    ghost var head := frame[28..at];
    engine.EncryptData(src, frame, at, |c|, iv, key, m);
    next, m' := at + |c|, m + c;
    assert frame[28..at] == head;
    assert frame[28..next] == frame[28..at] + frame[at..next];
  }

  method SealFrame(engine: Engine, key: seq<bv8>, keyId: bv8, iv: seq<bv8>,
      chunks: seq<seq<bv8>>) returns (frame: array<bv8>)
    requires |iv| == 3 && |key| <= 13 && engine.arc.state.Length == 256
    modifies engine, engine.arc, engine.arc.state
    ensures fresh(frame) && frame.Length == |Concat(chunks)| + 32
    ensures frame[24..] == Seal(key, iv, KeyIdByte(keyId), Concat(chunks)) && frame[27] == KeyIdByte(keyId)
  {
    hide Keyed, Crypt, Icv, KeyIdByte, Engine.Running, Concat;
    frame := new bv8[|Concat(chunks)| + 32];
    engine.Start(key, keyId, iv, false, frame, 24);
    ghost var first := frame[24..28];
    EncryptPieces(engine, frame, chunks, iv, key);
    var at := frame.Length - 4;
    assert frame[24..28] == first;
    ghost var head := frame[..at];
    engine.SetIcv(frame, at, iv, key, Concat(chunks));
    assert frame[..at] == head;
    assert frame[24..28] == head[24..28] && frame[28..at] == head[28..at];
    SealedFrame(frame[..], at, key, iv, keyId, Concat(chunks));
    assert frame[27] == first[3];
  }

  lemma SealedFrame(f: seq<bv8>, at: nat, key: seq<bv8>, iv: seq<bv8>, keyId: bv8, p: seq<bv8>)
    requires |iv| == 3 && 28 <= at == |f| - 4 && f[24..28] == iv + [KeyIdByte(keyId)]
    requires f[28..at] + f[at..at + 4] == Crypt(Keyed(iv, key), p + Icv(p))
    ensures f[24..] == Seal(key, iv, KeyIdByte(keyId), p)
  {
    hide Keyed, Crypt, Icv, KeyIdByte;
    SliceJoin(f, 24, 28, |f|);
    SliceJoin(f, 28, at, |f|);
  }

  /** Encrypting a payload in any number of pieces, adding the ICV and decrypting the frame with the
      same key: decryption succeeds and leaves the payload behind the header. */
  method RoundTrip(key: seq<bv8>, keyId: bv8, iv: seq<bv8>, chunks: seq<seq<bv8>>, keys: seq<seq<bv8>>)
    returns (ok: bool, plain: seq<bv8>)
    requires |iv| == 3 && 1 <= |key| <= 13 && keyId < 4
    requires |keys| == 4 && Val(keyId) < 4 && keys[Val(keyId)] == key
    ensures ok && plain == Concat(chunks)
  {
    hide Seal, Icv, KeyIdByte, KeyIndex, Val, Concat, Opened, Accepts;
    var engine := new Engine();
    var frame := SealFrame(engine, key, keyId, iv, chunks);
    ghost var p := Concat(chunks);
    ghost var b := Seal(key, iv, KeyIdByte(keyId), p);
    assert frame[24..frame.Length] == frame[24..];
    KeyIdRoundTrip(keyId);
    ok := engine.SoftDecrypt(frame, frame.Length, keys);
    OpenSeal(key, iv, KeyIdByte(keyId), p);
    plain := frame[24..frame.Length - 8];
    assert plain == frame[24..frame.Length - 4][..|p|];
  }
}
