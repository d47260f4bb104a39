/** Half-even rounding to an integer, and rounding to an IEEE 754 binary32 number built on it: 24 significant
    bits, half to even, subnormal numbers included. */
module Rounding {

  function Abs(x: real): real { if x < 0.0 then -x else x }

  /** `roundHalfEven`. */
  function RoundHalfEven(value: real): int {
    var lower := value.Floor;
    var fraction := value - lower as real;
    if fraction == 0.0 then lower
    else if fraction < 0.5 then lower
    else if fraction > 0.5 then lower + 1
    else if lower % 2 == 0 then lower else lower + 1
  }

  /** `n` is a nearest integer, and the even one of two. */
  predicate IsNearestEven(value: real, n: int) {
    && Abs(value - n as real) <= 0.5
    && (Abs(value - n as real) == 0.5 ==> n % 2 == 0)
  }

  lemma NearestEvenIsUnique(value: real, n: int)
    requires IsNearestEven(value, n)
    ensures n == RoundHalfEven(value)
  {
    var m := RoundHalfEven(value);
    assert (n as real) - (m as real) == (n - m) as real;
    assert -1 <= n - m <= 1;
  }

  lemma RoundHalfEvenIsNearest(value: real)
    ensures IsNearestEven(value, RoundHalfEven(value))
  {
  }

  lemma RoundHalfEvenMonotone(x: real, y: real)
    requires x <= y
    ensures RoundHalfEven(x) <= RoundHalfEven(y)
  {
    assert x.Floor <= y.Floor;
  }

  lemma RoundHalfEvenOdd(x: real)
    ensures RoundHalfEven(-x) == -RoundHalfEven(x)
  {
    RoundHalfEvenIsNearest(x);
    var n := RoundHalfEven(x);
    assert -x - (-n) as real == -(x - n as real);
    NearestEvenIsUnique(-x, -n);
  }

  // ----- binary32 -----

  /** `x` times 2^k. */
  function Scaled(x: real, k: int): real
    decreases if k < 0 then -k else k
  {
    if k == 0 then x else if k > 0 then 2.0 * Scaled(x, k - 1) else Scaled(x, k + 1) / 2.0
  }

  const SIGNIFICAND := 16777216.0 // 2^24

  const FINEST := 149     // every binary32 number is a multiple of 2^-149 ...
  const COARSEST := -104  // ... and the largest ones of 2^104; overflow is not modelled

  /** The finest `k <= limit` for which `a` has fewer than 25 bits before the point of `a` times 2^k. */
  function Quantum(a: real, limit: int): (k: int)
    requires limit >= COARSEST
    ensures COARSEST <= k <= limit
    ensures k < limit ==> Scaled(a, k + 1) >= SIGNIFICAND
    ensures Scaled(a, k) < SIGNIFICAND || k == COARSEST
    decreases limit - COARSEST
  {
    if Scaled(a, limit) < SIGNIFICAND || limit == COARSEST then limit else Quantum(a, limit - 1)
  }

  /** `Math.fround` below the overflow threshold: round to 24 significant bits, half to even. */
  function Fround(x: real): real { FroundAt(x, Quantum(Abs(x), FINEST)) }

  function FroundAt(x: real, k: int): real { Scaled(RoundHalfEven(Scaled(x, k)) as real, -k) }

  lemma {:induction false} ScaledStep(x: real, k: int)
    ensures Scaled(x, k + 1) == 2.0 * Scaled(x, k)
  {
  }

  lemma {:induction false} ScaledBack(x: real, j: int, k: int)
    ensures Scaled(Scaled(x, j), k) == Scaled(x, j + k)
    decreases if k < 0 then -k else k
  {
    if k > 0 {
      ScaledBack(x, j, k - 1);
      ScaledStep(x, j + k - 1);
    } else if k < 0 {
      ScaledBack(x, j, k + 1);
      ScaledStep(x, j + k);
    }
  }

  lemma {:induction false} ScaledLinear(x: real, y: real, k: int)
    ensures Scaled(x - y, k) == Scaled(x, k) - Scaled(y, k)
    ensures Scaled(-x, k) == -Scaled(x, k)
    ensures x <= y ==> Scaled(x, k) <= Scaled(y, k)
    decreases if k < 0 then -k else k
  {
    if k > 0 { ScaledLinear(x, y, k - 1); } else if k < 0 { ScaledLinear(x, y, k + 1); }
  }

  lemma {:induction false} ScaledGrows(x: real, j: int, k: int)
    requires x >= 0.0 && j <= k
    ensures 0.0 <= Scaled(x, j) <= Scaled(x, k)
    decreases k - j
  {
    ScaledLinear(0.0, x, j);
    ScaledZero(j);
    if j < k {
      ScaledGrows(x, j, k - 1);
      ScaledStep(x, k - 1);
    }
  }

  lemma {:induction false} ScaledZero(k: int)
    ensures Scaled(0.0, k) == 0.0
    decreases if k < 0 then -k else k
  {
    if k > 0 { ScaledZero(k - 1); } else if k < 0 { ScaledZero(k + 1); }
  }

  lemma {:induction false} ScaledWhole(n: int, k: nat)
    ensures Scaled(n as real, k).Floor as real == Scaled(n as real, k)
  {
    if k > 0 {
      ScaledWhole(n, k - 1);
      var m := Scaled(n as real, k - 1).Floor;
      assert Scaled(n as real, k) == (2 * m) as real;
    }
  }

  // ----- What Fround guarantees -----

  lemma FroundAtOdd(x: real, k: int)
    ensures FroundAt(-x, k) == -FroundAt(x, k)
  {
    ScaledLinear(x, x, k);
    RoundHalfEvenOdd(Scaled(x, k));
    ScaledLinear(RoundHalfEven(Scaled(x, k)) as real, 0.0, -k);
  }

  lemma FroundOdd(x: real)
    ensures Fround(-x) == -Fround(x)
  {
    assert Abs(-x) == Abs(x);
    FroundAtOdd(x, Quantum(Abs(x), FINEST));
  }

  /** Integers of up to 24 bits are exact. */
  lemma FroundExact(n: int)
    requires -16777216 < n < 16777216
    ensures Fround(n as real) == n as real
  {
    var x := n as real;
    var k := Quantum(Abs(x), FINEST);
    if k < 0 { ScaledGrows(Abs(x), k + 1, 0); }
    ScaledWhole(n, k);
    assert RoundHalfEven(Scaled(x, k)) as real == Scaled(x, k);
    ScaledBack(x, k, -k);
    assert Scaled(x, 0) == x;
  }

  lemma {:induction false} ScaledGap(u: real, v: real, w: real, m: int)
    requires 16777216.0 * (u - v) <= w
    ensures 16777216.0 * (Scaled(u, m) - Scaled(v, m)) <= Scaled(w, m)
    decreases if m < 0 then -m else m
  {
    if m > 0 { ScaledGap(u, v, w, m - 1); } else if m < 0 { ScaledGap(u, v, w, m + 1); }
  }

  lemma CloseAt(a: real, k: int)
    requires Scaled(a, k) >= SIGNIFICAND / 2.0
    ensures SIGNIFICAND * (FroundAt(a, k) - a) <= a && SIGNIFICAND * (a - FroundAt(a, k)) <= a
  {
    var y := Scaled(a, k);
    var n := RoundHalfEven(y) as real;
    RoundHalfEvenIsNearest(y);
    ScaledBack(a, k, -k);
    ScaledGap(n, y, y, -k);
    ScaledGap(y, n, y, -k);
  }

  /** Away from zero the relative error is at most 2^-24. */
  lemma FroundClose(x: real)
    requires Abs(x) >= 0.000001
    ensures SIGNIFICAND * Abs(Fround(x) - x) <= Abs(x)
  {
    var a := Abs(x);
    var k := Quantum(a, FINEST);
    if k == FINEST { ScaledFar(a); }
    ScaledStep(a, k);
    CloseAt(a, k);
    FroundAtOdd(x, k);
  }

  /** 0.000001 is far above the subnormal numbers. */
  lemma ScaledFar(a: real)
    requires a >= 0.000001
    ensures Scaled(a, FINEST) >= SIGNIFICAND
  {
    ScaledGrows(a, 48, FINEST);
    ScaledDoubling(a);
  }

  lemma ScaledDoubling(a: real)
    requires a >= 0.000001
    ensures Scaled(a, 48) >= SIGNIFICAND
  {
    assert Scaled(a, 8) == 256.0 * a;
    ScaledBack(a, 8, 8);
    assert Scaled(a, 16) == 65536.0 * a;
    ScaledBack(a, 16, 16);
    ScaledBack(a, 32, 16);
    var b, c := Scaled(a, 16), Scaled(a, 32);
    assert Scaled(b, 8) == 256.0 * b;
    ScaledBack(b, 8, 8);
    assert c == 65536.0 * b;
    assert Scaled(c, 8) == 256.0 * c;
    ScaledBack(c, 8, 8);
  }

  lemma FroundNonnegative(x: real, k: int)
    requires x >= 0.0
    ensures FroundAt(x, k) >= 0.0
  {
    ScaledLinear(0.0, x, k);
    ScaledZero(k);
    RoundHalfEvenMonotone(0.0, Scaled(x, k));
    ScaledLinear(0.0, RoundHalfEven(Scaled(x, k)) as real, -k);
    ScaledZero(-k);
  }

  lemma {:induction false} QuantumAntitone(a: real, b: real, limit: int)
    requires 0.0 <= a <= b && limit >= COARSEST
    ensures Quantum(b, limit) <= Quantum(a, limit)
    decreases limit - COARSEST
  {
    ScaledLinear(a, b, limit);
    if limit > COARSEST { QuantumAntitone(a, b, limit - 1); }
  }

  lemma SameBinade(a: real, b: real, k: int)
    requires a <= b
    ensures FroundAt(a, k) <= FroundAt(b, k)
  {
    ScaledLinear(a, b, k);
    RoundHalfEvenMonotone(Scaled(a, k), Scaled(b, k));
    ScaledLinear(RoundHalfEven(Scaled(a, k)) as real, RoundHalfEven(Scaled(b, k)) as real, -k);
  }

  lemma CoarserBinade(a: real, b: real, j: int, k: int)
    requires k < j && Scaled(a, j) < SIGNIFICAND <= Scaled(b, k + 1)
    ensures FroundAt(a, j) <= FroundAt(b, k)
  {
    BinadeBoundary(a, j);
    BinadeFloor(b, k);
    ScaledGrows(SIGNIFICAND, -j, -(k + 1));
  }

  lemma FroundMonotonePositive(a: real, b: real)
    requires 0.0 <= a <= b
    ensures Fround(a) <= Fround(b)
  {
    QuantumAntitone(a, b, FINEST);
    var j, k := Quantum(a, FINEST), Quantum(b, FINEST);
    if j == k { SameBinade(a, b, k); } else { CoarserBinade(a, b, j, k); }
  }

  lemma BinadeBoundary(a: real, j: int)
    requires Scaled(a, j) < SIGNIFICAND
    ensures FroundAt(a, j) <= Scaled(SIGNIFICAND, -j)
  {
    RoundHalfEvenMonotone(Scaled(a, j), SIGNIFICAND);
    ScaledLinear(RoundHalfEven(Scaled(a, j)) as real, SIGNIFICAND, -j);
  }

  lemma BinadeFloor(b: real, k: int)
    requires Scaled(b, k + 1) >= SIGNIFICAND
    ensures FroundAt(b, k) >= Scaled(SIGNIFICAND, -(k + 1))
  {
    ScaledStep(b, k);
    var half := SIGNIFICAND / 2.0;
    RoundHalfEvenMonotone(half, Scaled(b, k));
    ScaledLinear(half, RoundHalfEven(Scaled(b, k)) as real, -k);
    ScaledStep(half, -(k + 1));
    ScaledBack(SIGNIFICAND, -1, -k);
    assert Scaled(SIGNIFICAND, -1) == half;
  }

  lemma FroundSign(x: real)
    ensures x >= 0.0 ==> Fround(x) >= 0.0
    ensures x <= 0.0 ==> Fround(x) <= 0.0
  {
    FroundOdd(x);
    if x >= 0.0 {
      FroundNonnegative(x, Quantum(x, FINEST));
    } else {
      FroundNonnegative(-x, Quantum(-x, FINEST));
    }
  }

  lemma FroundMonotone(x: real, y: real)
    requires x <= y
    ensures Fround(x) <= Fround(y)
  {
    if x >= 0.0 {
      FroundMonotonePositive(x, y);
    } else if y <= 0.0 {
      FroundMonotonePositive(-y, -x);
      FroundOdd(x);
      FroundOdd(y);
    } else {
      FroundSign(x);
      FroundSign(y);
    }
  }

  /** Up to 100 the absolute error is at most 100 * 2^-24, subnormal numbers included. */
  lemma FroundAbsolute(x: real)
    requires Abs(x) <= 100.0
    ensures 16777216.0 * Abs(Fround(x) - x) <= 100.0
  {
    if Abs(x) >= 0.000001 {
      FroundClose(x);
    } else {
      FroundMonotone(x, 0.000001);
      FroundMonotone(-0.000001, x);
      FroundClose(0.000001);
      FroundClose(-0.000001);
    }
  }

  lemma FroundBetween(low: int, x: real, high: int)
    requires -16777216 < low && high < 16777216 && low as real <= x <= high as real
    ensures low as real <= Fround(x) <= high as real
  {
    FroundMonotone(low as real, x);
    FroundMonotone(x, high as real);
    FroundExact(low);
    FroundExact(high);
  }

  // ----- Computing -----

  lemma {:induction false} QuantumIs(a: real, k: int, limit: int)
    requires a >= 0.0 && COARSEST <= k < limit && Scaled(a, k) < SIGNIFICAND <= Scaled(a, k + 1)
    ensures Quantum(a, limit) == k
    decreases limit - COARSEST
  {
    ScaledGrows(a, k + 1, limit);
    if limit == k + 1 {
      assert Quantum(a, limit) == Quantum(a, k);
    } else {
      QuantumIs(a, k, limit - 1);
    }
  }

  /** Rounding a number by hand: `n` is the nearest even integer at the scale that leaves 24 bits. */
  lemma FroundIs(x: real, k: int, n: int)
    requires 0 <= k < FINEST && Scaled(Abs(x), k) < SIGNIFICAND <= Scaled(Abs(x), k + 1)
    requires IsNearestEven(Scaled(x, k), n)
    ensures Scaled(Fround(x), k) == n as real
  {
    QuantumIs(Abs(x), k, FINEST);
    NearestEvenIsUnique(Scaled(x, k), n);
    ScaledBack(n as real, -k, k);
    assert Scaled(n as real, 0) == n as real;
  }
}
