/** Python's bitwise operators on integers of any size and sign, and their arithmetic. */
module Bits {
  import opened Arith

  function Pow2(n: nat): (p: nat)
    ensures p > 0
  {
    if n == 0 then 1 else 2 * Pow2(n - 1)
  }

  function Abs(x: int): nat {
    if x < 0 then -x else x
  }

  /** `a & b` on two's complement integers: division by two is a shift to the right. */
  function BitAnd(a: int, b: int): int
    decreases Abs(a) + Abs(b)
  {
    if a == 0 || b == 0 then 0
    else if a == -1 then b
    else if b == -1 then a
    else 2 * BitAnd(a / 2, b / 2) + (if a % 2 == 1 && b % 2 == 1 then 1 else 0)
  }

  /** `a | b`. */
  function BitOr(a: int, b: int): int
    decreases Abs(a) + Abs(b)
  {
    if a == -1 || b == -1 then -1
    else if a == 0 then b
    else if b == 0 then a
    else 2 * BitOr(a / 2, b / 2) + (if a % 2 == 1 || b % 2 == 1 then 1 else 0)
  }

  lemma {:induction false} Pow2Add(m: nat, n: nat)
    ensures Pow2(m + n) == Pow2(m) * Pow2(n)
  {
    if m == 0 {
    } else {
      Pow2Add(m - 1, n);
      assert Pow2(m) * Pow2(n) == 2 * (Pow2(m - 1) * Pow2(n));
    }
  }

  /** Remainder by twice a number, one bit at a time. */
  lemma ModTwice(x: int, p: nat)
    requires p > 0
    ensures x % (2 * p) == 2 * (x / 2 % p) + x % 2
  {
    var q, r := x / 2 / p, x / 2 % p;
    assert x == 2 * (x / 2) + x % 2;
    assert x / 2 == q * p + r;
    assert x == q * (2 * p) + (2 * r + x % 2);
    ModUnique(x, 2 * p, q, 2 * r + x % 2);
  }

  lemma ModUnique(x: int, s: nat, q: int, r: nat)
    requires s > 0 && x == q * s + r && r < s
    ensures x % s == r
  {
    assert x == x / s * s + x % s;
    assert (q - x / s) * s == x % s - r;
    MulBound(q - x / s, s);
  }

  // ---- One bit at a time ----

  lemma HalfOfMinusOne()
    ensures -1 / 2 == -1 && -1 % 2 == 1
  {
  }

  lemma AndOdd(x: int, m: nat)
    ensures BitAnd(x, 2 * m + 1) == 2 * BitAnd(x / 2, m) + x % 2
  {
    assert (2 * m + 1) / 2 == m && (2 * m + 1) % 2 == 1;
    HalfOfMinusOne();
  }

  lemma AndEven(x: int, m: int)
    ensures BitAnd(x, 2 * m) == 2 * BitAnd(x / 2, m)
  {
    assert 2 * m / 2 == m && 2 * m % 2 == 0;
    HalfOfMinusOne();
  }

  lemma OrEven(x: int, m: int)
    ensures BitOr(x, 2 * m) == 2 * BitOr(x / 2, m) + x % 2
  {
    assert 2 * m / 2 == m && 2 * m % 2 == 0;
    HalfOfMinusOne();
  }

  lemma OrStep(x: int, m: int, n: int, half: int)
    requires n == 2 * m && BitOr(x / 2, m) == half
    ensures BitOr(x, n) == 2 * half + x % 2
  {
    OrEven(x, m);
  }

  // ---- Masks and shifts ----

  /** `x & (2**k - 1)` keeps the low `k` bits. */
  lemma {:induction false} AndLowMask(x: int, k: nat)
    ensures BitAnd(x, Pow2(k) - 1) == x % Pow2(k)
    decreases k
  {
    if k == 0 {
    } else {
      var p := Pow2(k - 1);
      ModTwice(x, p);
      AndLowMask(x / 2, k - 1);
      AndOdd(x, p - 1);
    }
  }

  /** `x & 2**k` tests the top bit of a number of `k + 1` bits. */
  lemma {:induction false} AndTopBit(x: nat, k: nat)
    requires x < Pow2(k + 1)
    ensures BitAnd(x, Pow2(k)) == 0 <==> x < Pow2(k)
    decreases k
  {
    if k == 0 {
    } else {
      AndTopBit(x / 2, k - 1);
      AndEven(x, Pow2(k - 1));
    }
  }

  /** `b << k`. */
  function Shl(b: nat, k: nat): nat {
    if k == 0 then b else 2 * Shl(b, k - 1)
  }

  lemma {:induction false} ShlIsMul(b: nat, k: nat)
    ensures Shl(b, k) == b * Pow2(k)
  {
    if k == 0 {
    } else {
      ShlIsMul(b, k - 1);
      assert b * Pow2(k) == 2 * (b * Pow2(k - 1));
    }
  }

  /** `a | (b << k)` is a sum when `a` fits below bit `k`. */
  lemma {:induction false} OrDisjoint(a: nat, b: nat, k: nat)
    requires a < Pow2(k)
    ensures BitOr(a, Shl(b, k)) == a + Shl(b, k)
    decreases k
  {
    if k == 0 {
    } else {
      OrDisjoint(a / 2, b, k - 1);
      OrStep(a, Shl(b, k - 1), Shl(b, k), a / 2 + Shl(b, k - 1));
    }
  }

  /** `x | ~(2**k - 1)` is the negative number with the low `k` bits of `x`. */
  lemma {:induction false} OrHighMask(x: int, k: nat)
    ensures BitOr(x, 0 - Pow2(k)) == x % Pow2(k) - Pow2(k)
    decreases k
  {
    if k == 0 {
    } else {
      var p: int := Pow2(k - 1);
      ModTwice(x, p);
      OrHighMask(x / 2, k - 1);
      OrStep(x, 0 - p, 0 - Pow2(k), x / 2 % p - p);
    }
  }
}
