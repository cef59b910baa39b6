/** The sizes swept by the latency benchmark (configs/dram/lat_mem_rd.py). */
module Ranges {
  import opened Arith
  import opened Bits

  /** The test `num & (num - 1)`. */
  predicate IsPow2(num: int) {
    num != 0 && BitAnd(num, num - 1) == 0
  }

  ghost predicate PowerOfTwo(num: int) {
    exists k: nat :: num == Pow2(k)
  }

  // ---- The test is right ----

  lemma {:induction false} AndSelf(x: nat)
    ensures BitAnd(x, x) == x
  {
    if x == 0 {
    } else {
      AndSelf(x / 2);
    }
  }

  lemma {:induction false} AndNegative(a: int, b: int)
    requires a < 0 && b < 0
    ensures BitAnd(a, b) < 0
    decreases Abs(a) + Abs(b)
  {
    if a != -1 && b != -1 {
      AndNegative(a / 2, b / 2);
    }
  }

  lemma {:induction false} Pow2Test(k: nat)
    ensures BitAnd(Pow2(k), Pow2(k) - 1) == 0
  {
    if k == 0 {
    } else {
      Pow2Test(k - 1);
      AndHalves(Pow2(k - 1));
    }
  }

  lemma AndHalves(m: nat)
    requires m > 0
    ensures BitAnd(2 * m, 2 * m - 1) == 2 * BitAnd(m, m - 1)
  {
    assert (2 * m) / 2 == m && (2 * m - 1) / 2 == m - 1;
  }

  lemma {:induction false} TestPow2(x: nat) returns (k: nat)
    requires x > 0 && BitAnd(x, x - 1) == 0
    ensures x == Pow2(k)
  {
    var m := x / 2;
    if x % 2 == 0 {
      AndHalves(m);
      k := TestPow2(m);
      k := k + 1;
    } else {
      if m > 0 {
        assert (x - 1) / 2 == m;
        assert BitAnd(x, x - 1) == 2 * BitAnd(m, m);
        AndSelf(m);
      }
      k := 0;
      assert x == 1;
    }
  }

  /** The test holds of the powers of two and of no other integer, negative ones included. */
  lemma IsPow2Exactly(num: int)
    ensures IsPow2(num) <==> PowerOfTwo(num)
  {
    if num < 0 {
      AndNegative(num, num - 1);
    } else if num > 0 {
      if IsPow2(num) {
        var k := TestPow2(num);
      }
      if k: nat :| num == Pow2(k) {
        Pow2Test(k);
      }
    }
  }

  method TestsPow2(num: int) returns (yes: bool)
    ensures yes <==> PowerOfTwo(num)
  {
    IsPow2Exactly(num);
    yes := IsPow2(num);
  }

  // ---- The ranges ----

  /** Range number `i`: each power of two from 4096 on, then its three quarter steps. */
  function Range(i: nat): nat {
    (4 + i % 4) * Pow2(10 + i / 4)
  }

  function Step(i: nat): nat {
    Pow2(10 + i / 4)
  }

  lemma {:induction false} Pow2Grows(a: nat, b: nat)
    requires a < b
    ensures 2 * Pow2(a) <= Pow2(b)
  {
    if a + 1 < b {
      Pow2Grows(a, b - 1);
    }
  }

  lemma NotBetween(num: int, k: nat)
    requires Pow2(k) < num < 2 * Pow2(k)
    ensures !PowerOfTwo(num)
  {
    if j: nat :| num == Pow2(j) {
      if j < k {
        Pow2Grows(j, k);
      } else if k < j {
        Pow2Grows(k, j);
      }
    }
  }

  lemma FourTimes(k: nat)
    ensures Pow2(k + 2) == 4 * Pow2(k)
  {
    assert Pow2(k + 1) == 2 * Pow2(k);
  }

  /** One step on; the next range is a power of two after every fourth. */
  lemma NextRange(i: nat)
    ensures Range(i + 1) == Range(i) + Step(i)
    ensures PowerOfTwo(Range(i) + Step(i)) <==> i % 4 == 3
    ensures Step(i + 1) == if i % 4 == 3 then 2 * Step(i) else Step(i)
  {
    var p := Step(i);
    FourTimes(10 + i / 4);
    if i % 4 == 3 {
      assert (i + 1) / 4 == i / 4 + 1 && (i + 1) % 4 == 0;
      assert Pow2(10 + (i + 1) / 4) == 2 * p;
      assert Range(i) + p == Pow2(10 + i / 4 + 3);
    } else {
      assert (i + 1) / 4 == i / 4 && (i + 1) % 4 == i % 4 + 1;
      assert (5 + i % 4) * p == (4 + i % 4) * p + p;
      MulMono(5 + i % 4, 7, p);
      MulMono(5, 5 + i % 4, p);
      NotBetween(Range(i) + p, 10 + i / 4 + 2);
    }
  }

  /** The step is a quarter of the largest power of two that does not exceed the range. */
  lemma StepIsQuarter(i: nat)
    ensures 4 * Step(i) == Pow2(12 + i / 4)
    ensures Pow2(12 + i / 4) <= Range(i) < Pow2(13 + i / 4)
  {
    var p := Step(i);
    FourTimes(10 + i / 4);
    assert Pow2(13 + i / 4) == 2 * Pow2(12 + i / 4);
    MulMono(4, 4 + i % 4, p);
    MulMono(4 + i % 4, 7, p);
  }

  lemma {:induction false} RangesGrow(i: nat, j: nat)
    requires i < j
    ensures Range(i) < Range(j)
  {
    NextRange(j - 1);
    if i < j - 1 {
      RangesGrow(i, j - 1);
    }
  }

  /** The loop: ends for every `maxRange`, with the first range that reaches it. */
  method MakeRanges(maxRange: int) returns (ranges: seq<int>)
    ensures |ranges| >= 1 && forall i :: 0 <= i < |ranges| ==> ranges[i] == Range(i)
    ensures ranges[|ranges| - 1] >= maxRange
    ensures forall i :: 0 <= i < |ranges| - 1 ==> ranges[i] < maxRange
  {
    Start();
    ranges := [4096];
    var step := 1024;
    while ranges[|ranges| - 1] < maxRange
      invariant |ranges| >= 1 && step == Step(|ranges| - 1)
      invariant forall i :: 0 <= i < |ranges| ==> ranges[i] == Range(i)
      invariant forall i :: 0 <= i < |ranges| - 1 ==> ranges[i] < maxRange
      decreases maxRange - ranges[|ranges| - 1]
    {
      var newRange := ranges[|ranges| - 1] + step;
      NextRange(|ranges| - 1);
      var doubles := TestsPow2(newRange);
      if doubles {
        step := step * 2;
      }
      ranges := ranges + [newRange];
    }
  }

  lemma Start()
    ensures Range(0) == 4096 && Step(0) == 1024
  {
    FourTimes(0);
    FourTimes(2);
    FourTimes(4);
    FourTimes(6);
    FourTimes(8);
  }

  lemma RangeOfPower(q: nat)
    ensures Range(4 * q) == Pow2(12 + q)
  {
    assert (4 * q) % 4 == 0 && (4 * q) / 4 == q;
    FourTimes(10 + q);
  }

  /** Every power of two from 4096 up to the last range is among the ranges. */
  lemma PowersHit(n: nat, k: nat)
    requires n >= 1 && k >= 12 && Pow2(k) <= Range(n - 1)
    ensures 4 * (k - 12) < n && Range(4 * (k - 12)) == Pow2(k)
  {
    RangeOfPower(k - 12);
    if n - 1 < 4 * (k - 12) {
      RangesGrow(n - 1, 4 * (k - 12));
    }
  }
}
