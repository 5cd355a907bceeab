/** Sequence-number arithmetic of the receive path (include/mlme.h, include/rtmp.h). */
module SeqNum {

  const MAXSEQ: int := 0xFFF
  const SEQ_SPACE: int := 4096
  const HALF_SPACE: int := 2048

  // Value of LastIndSeq while no sequence number has been indicated yet.
  const RESET_RCV_SEQ: int := 0xFFFF

  /** SEQ_STEPONE: `a` is the successor of `b` modulo 4096. */
  predicate StepOne(a: int, b: int) {
    a == (b + 1) % 4096
  }

  /** SEQ_SMALLER: bit 11 of the difference, as C computes it on two's complement integers. */
  predicate Smaller(a: int, b: int) {
    (a - b) % 4096 >= 2048
  }

  function Wrap12(n: int): (w: int)
    ensures 0 <= w <= MAXSEQ
  {
    n % 4096
  }

  /** Half of the sequence space on either side of `b`: where 12-bit comparison is unambiguous. */
  predicate Near(a: int, b: int) {
    -2048 <= a - b < 2048
  }

  /** Inside half the space, the 12-bit order is the order of the true numbers. */
  lemma SmallerIsLess(a: int, b: int)
    requires Near(a, b)
    ensures Smaller(Wrap12(a), Wrap12(b)) <==> a < b
  {
    var d := a - b;
    assert (Wrap12(a) - Wrap12(b) - d) % SEQ_SPACE == 0;
  }

  lemma WrapInjective(a: int, b: int)
    requires Near(a, b)
    ensures Wrap12(a) == Wrap12(b) <==> a == b
  {
  }

  lemma StepOneIsSuccessor(a: int, b: int)
    requires -HALF_SPACE <= a - b <= HALF_SPACE
    ensures StepOne(Wrap12(a), Wrap12(b)) <==> a == b + 1
  {
  }

  /** SEQ_SMALLER against the reset value: true exactly for the lower half of the space. */
  lemma SmallerThanReset(s: int)
    requires 0 <= s <= MAXSEQ
    ensures Smaller(RESET_RCV_SEQ, s) <==> s < HALF_SPACE
  {
  }

  /** Shifting both numbers by a common offset does not change the comparison. */
  lemma WrapShift(n: int, d: int)
    ensures Wrap12(Wrap12(n) + d) == Wrap12(n + d)
  {
  }
}
