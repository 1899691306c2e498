/** Machine words, powers of two, and the arithmetic of 32-bit indices into rings. */
module Arithmetic {

  /** The number of values of a 32-bit and of a 64-bit word. */
  const U32: nat := 0x1_0000_0000
  const U64: nat := 0x1_0000_0000_0000_0000

  type Word32 = x: nat | x < U32
  type Word64 = x: nat | x < U64

  function Least(a: int, b: int): int { if a < b then a else b }

  function AtLeastOne(n: nat): nat { if n < 1 then 1 else n }

  function Pow2(n: nat): (p: nat)
    ensures p >= 1
  {
    if n == 0 then 1 else 2 * Pow2(n - 1)
  }

  lemma {:induction false} Pow2Grows(a: nat, b: nat)
    requires a <= b
    ensures Pow2(a) <= Pow2(b)
  {
    if a < b {
      Pow2Grows(a, b - 1);
    }
  }

  lemma {:induction false} Pow2Four(n: nat)
    ensures Pow2(n + 4) == 16 * Pow2(n)
  {
    assert Pow2(n + 2) == 2 * Pow2(n + 1) && Pow2(n + 3) == 2 * Pow2(n + 2);
  }

  lemma {:induction false} Pow2Sixteen(n: nat)
    ensures Pow2(n + 16) == 0x1_0000 * Pow2(n)
  {
    Pow2Four(n);
    Pow2Four(n + 4);
    Pow2Four(n + 8);
    Pow2Four(n + 12);
  }

  lemma {:induction false} Product(a: int, b: int, s: nat)
    requires a <= b
    ensures a * s <= b * s
  {
    assert (b - a) * s >= 0;
  }

  lemma {:induction false} CancelProduct(a: int, b: int, s: nat)
    requires a * s < b * s
    ensures a < b
  {
    if b <= a {
      Product(b, a, s);
    }
  }

  lemma {:induction false} SumOfProducts(a: nat, b: nat, c: nat, s: nat)
    ensures (a + b + c) * s == a * s + b * s + c * s
  {
  }

  lemma {:induction false} Division(x: nat, n: nat)
    requires n >= 1
    ensures x == x / n * n + x % n && x % n < n
  {
  }

  lemma {:induction false} RemainderIs(x: nat, n: nat, p: nat, b: nat)
    requires n >= 1 && b < n && x == p * n + b
    ensures x % n == b
  {
    var d := x / n;
    Division(x, n);
    assert (p + 1) * n == p * n + n && (d + 1) * n == d * n + n;
    if d > p {
      Product(p + 1, d, n);
    } else if d < p {
      Product(d + 1, p, n);
    }
  }

  /** A ring whose size divides 2^32 does not notice its 32-bit index wrapping. */
  lemma {:induction false} WrapKeepsSlot(x: nat, n: nat, k: nat)
    requires n >= 1 && k * n == U32
    ensures x % U32 % n == x % n
  {
    var q, r := x / U32, x % U32;
    var a, b := r / n, r % n;
    assert x == q * U32 + r && r == a * n + b;
    assert q * (k * n) == (q * k) * n;
    assert (q * k + a) * n == (q * k) * n + a * n;
    RemainderIs(x, n, q * k + a, b);
  }
}
