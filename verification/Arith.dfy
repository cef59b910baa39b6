/** Facts about division and multiplication that the models share. */
module Arith {

  lemma MulBound(a: int, s: nat)
    ensures a >= 1 ==> a * s >= s
    ensures a <= -1 ==> a * s + s <= 0
    ensures a == 0 ==> a * s == 0
  {
  }

  /** Quotient and remainder are the only ones. */
  lemma DivModUnique(x: nat, s: nat, q: nat, r: nat)
    requires s > 0 && x == q * s + r && r < s
    ensures x / s == q && x % s == r
  {
    var q2, r2 := x / s, x % s;
    assert x == q2 * s + r2;
    assert (q - q2) * s == r2 - r;
    MulBound(q - q2, s);
  }

  lemma MultipleMod(k: nat, s: nat)
    requires s > 0
    ensures (k * s) % s == 0 && (k * s) / s == k
  {
    DivModUnique(k * s, s, k, 0);
  }

  lemma MulMono(a: nat, b: nat, s: nat)
    requires a <= b
    ensures a * s <= b * s
  {
  }

  lemma DivMono(a: nat, b: nat, s: nat)
    requires s > 0 && a <= b
    ensures a / s <= b / s
  {
    var q, r := a / s - b / s, b % s - a % s;
    assert a == a / s * s + a % s && b == b / s * s + b % s;
    assert q * s == r + a - b;
    MulBound(q, s);
  }

  /** `x / s < w` exactly when `x` is in the first `w` blocks of `s`. */
  lemma DivBelow(x: nat, w: nat, s: nat)
    requires s > 0 && x < w * s
    ensures x / s < w
  {
    var q := x / s - w;
    assert x == x / s * s + x % s;
    assert q * s == x - x % s - w * s;
    if q >= 0 {
      MulMono(0, q, s);
    }
  }

  function Sum(ns: seq<nat>): nat {
    if ns == [] then 0 else Sum(ns[..|ns| - 1]) + ns[|ns| - 1]
  }
}
