/** Byte blocks, and block ciphers as functions on 16-byte blocks. */
module BlockCipher {
  import opened AesTables
  import opened Aes

  type Bytes = seq<bv8>

  type Block = Bytes -> Bytes

  ghost predicate Keeps16(e: Block) {
    forall b: Bytes {:trigger e(b)} :: |b| == 16 ==> |e(b)| == 16
  }

  /** e keeps 16-byte blocks, and d undoes it. */
  ghost predicate Undoes(d: Block, e: Block) {
    forall b: Bytes {:trigger e(b)} :: |b| == 16 ==> |e(b)| == 16 && d(e(b)) == b
  }

  /** e keeps different 16-byte blocks different. */
  ghost predicate Injective(e: Block) {
    forall a: Bytes, b: Bytes {:trigger e(a), e(b)} :: |a| == |b| == 16 && e(a) == e(b) ==> a == b
  }

  /** AES-128 block encryption under the key. */
  function Aes128(k: State): Block {
    (b: Bytes) => if |b| == 16 then ToBytes(Cipher(k, FromBytes(b))) else b
  }

  lemma Aes128Keeps(k: State)
    ensures Keeps16(Aes128(k))
  {
    hide Cipher, ToBytes;
  }

  function ToByte(x: nat): bv8
    requires x < 256
  {
    x as bv8
  }

  lemma ZeroByte()
    ensures ToByte(0) == 0
  {
  }

  function XorBytes(a: Bytes, b: Bytes): (x: Bytes)
    requires |a| == |b|
    ensures |x| == |a|
  {
    seq(|a|, k requires 0 <= k < |a| => Xor(a[k], b[k]))
  }

  lemma XorBytesTwice(a: Bytes, b: Bytes)
    requires |a| == |b|
    ensures XorBytes(XorBytes(a, b), b) == a
  {
    hide Xor;
    forall k | 0 <= k < |a|
      ensures XorBytes(XorBytes(a, b), b)[k] == a[k]
    {
      XorTwice(a[k], b[k]);
    }
  }

  /** Bytes as a number, highest byte first. */
  function Value(b: Bytes): nat {
    if b == [] then 0 else 256 * Value(b[..|b| - 1]) + b[|b| - 1] as int
  }

  lemma ValueSnoc(b: Bytes, x: bv8)
    ensures Value(b + [x]) == 256 * Value(b) + x as int
  {
    assert (b + [x])[..|b|] == b;
  }

  lemma ByteBack(x: nat)
    requires x < 256
    ensures ToByte(x) as int == x
  {
    var b := ByteFor(x);
    ByteIs(x, b);
  }

  /** Counting up to x. */
  lemma {:induction false} ByteFor(x: nat) returns (b: bv8)
    requires x < 256
    ensures b as int == x
  {
    if x == 0 {
      b := 0;
    } else {
      var c := ByteFor(x - 1);
      b := c + 1;
    }
  }

  lemma ByteIs(x: nat, b: bv8)
    requires x < 256 && b as int == x
    ensures ToByte(x) == b
  {
  }
}
