module Modular {
  type Byte = x: int | 0 <= x < 256

  /** A remainder is determined by any quotient that leaves it below the divisor. */
  lemma RemainderIs(n: nat, q: nat, x: nat)
    requires x < n
    ensures (n * q + x) % n == x
  {
    var a := n * q + x;
    var d := a / n - q;
    assert n * d == n * (a / n) - n * q == x - a % n;
    OnlyZero(n, d);
  }

  lemma OnlyZero(n: int, d: int)
    requires -n < n * d < n
    ensures d == 0
  {
    assert d >= 1 ==> n * d >= n;
    assert d <= -1 ==> n * d <= -n;
  }

  /** INC_RING_INDEX on a ring of the given size, n times. */
  function Ix(size: nat, i: nat, n: nat): (k: nat)
    requires size > 0
    ensures k < size
  {
    (i + n) % size
  }

  lemma IxDistinct(size: nat, d: nat, i: nat, j: nat)
    requires i < size && j < size && i != j
    ensures Ix(size, d, i) != Ix(size, d, j)
  {
    if (d + i) % size == (d + j) % size {
      var q := (d + i) / size - (d + j) / size;
      assert size * q == i - j;
      OnlyZero(size, q);
    }
  }

  lemma IxSum(size: nat, d: nat, i: nat, j: nat)
    requires size > 0
    ensures Ix(size, Ix(size, d, i), j) == Ix(size, d, i + j)
  {
    var a, q := IxQuotient(size, d, i);
    var b, p := IxQuotient(size, a, j);
    hide Ix;
    IxOf(size, d, i + j, Combined(size, d + i, j, q, a, p, b), b);
  }

  lemma IxQuotient(size: nat, d: nat, i: nat) returns (a: nat, q: nat)
    requires size > 0
    ensures a == Ix(size, d, i) && d + i == size * q + a && a < size
  {
    a, q := (d + i) % size, (d + i) / size;
  }

  lemma IxOf(size: nat, d: nat, n: nat, q: nat, b: nat)
    requires b < size && d + n == size * q + b
    ensures Ix(size, d, n) == b
  {
    RemainderIs(size, q, b);
  }

  function Combined(size: nat, x: nat, j: nat, q: nat, a: nat, p: nat, b: nat): (s: nat)
    requires x == size * q + a && a + j == size * p + b
    ensures x + j == size * s + b
  {
    assert size * (q + p) == size * q + size * p;
    q + p
  }

  lemma IxWrap(size: nat, d: nat)
    requires d < size
    ensures Ix(size, d, 0) == d == Ix(size, d, size)
  {
    RemainderIs(size, 0, d);
    RemainderIs(size, 1, d);
  }
}
