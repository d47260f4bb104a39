/** Duty values at a given resolution, and their rescaling when the resolution changes. */
module Pwm {
  function Pow2(n: nat): (p: nat)
    ensures p >= 1
  {
    if n == 0 then 1 else 2 * Pow2(n - 1)
  }

  predicate ValidResolution(bits: int) { 1 <= bits <= 16 }

  /** `pwmMaximumForResolution`. */
  function MaxDuty(bits: nat): int { Pow2(bits) - 1 }

  lemma {:induction false} MaxDutyGrows(a: nat, b: nat)
    requires a <= b
    ensures MaxDuty(a) <= MaxDuty(b) && MaxDuty(8) == 255
    ensures a >= 1 ==> MaxDuty(a) >= 1
    decreases b
  {
    if a < b { MaxDutyGrows(a, b - 1); }
    assert Pow2(8) == 256 by { assert Pow2(4) == 16; assert Pow2(6) == 64; }
  }

  /** `rescalePwmValue`; truncation is flooring, as duties are not negative. */
  function Rescale(value: int, from: nat, to: nat): int
    requires from >= 1
  {
    MaxDutyGrows(1, from);
    (value * MaxDuty(to)) / MaxDuty(from)
  }

  lemma DivideBounds(x: int, d: int)
    requires d > 0
    ensures d * (x / d) <= x < d * (x / d) + d
  {
  }

  lemma ProductMonotone(x: int, y: int, k: int)
    requires x <= y && k >= 0
    ensures x * k <= y * k
  {
  }

  /** Cancelling a positive factor from a strict bound. */
  lemma Cancel(x: int, y: int, d: int)
    requires d > 0 && d * x < d * y + d
    ensures x <= y
  {
    if x >= y + 1 { ProductMonotone(y + 1, x, d); }
  }

  lemma RescaleMonotone(x: int, y: int, from: nat, to: nat)
    requires from >= 1 && x <= y
    ensures Rescale(x, from, to) <= Rescale(y, from, to)
  {
    var s, t := MaxDuty(from), MaxDuty(to);
    MaxDutyGrows(1, from);
    ProductMonotone(x, y, t);
    DivideBounds(x * t, s);
    DivideBounds(y * t, s);
    Cancel(x * t / s, y * t / s, s);
  }

  lemma ExactQuotient(n: int, d: int)
    requires d > 0
    ensures (d * n) / d == n
  {
    DivideBounds(d * n, d);
    Cancel(n, d * n / d, d);
    Cancel(d * n / d, n, d);
  }

  /** Both ends of the range are kept, so duties stay in range. */
  lemma RescaleKeepsRange(value: int, from: nat, to: nat)
    requires from >= 1 && 0 <= value <= MaxDuty(from)
    ensures 0 <= Rescale(value, from, to) <= MaxDuty(to)
    ensures Rescale(0, from, to) == 0 && Rescale(MaxDuty(from), from, to) == MaxDuty(to)
  {
    MaxDutyGrows(1, from);
    ExactQuotient(MaxDuty(to), MaxDuty(from));
    RescaleMonotone(0, value, from, to);
    RescaleMonotone(value, MaxDuty(from), from, to);
  }

  /** Going to a finer resolution and back loses at most one step, and none exactly when the intermediate
      value was not truncated. */
  lemma RescaleRoundTrip(value: int, from: nat, to: nat)
    requires 1 <= from <= to
    ensures value - 1 <= Rescale(Rescale(value, from, to), to, from) <= value
    ensures Rescale(Rescale(value, from, to), to, from) == value
      <==> MaxDuty(from) * Rescale(value, from, to) == value * MaxDuty(to)
  {
    var s, t := MaxDuty(from), MaxDuty(to);
    MaxDutyGrows(1, from);
    MaxDutyGrows(from, to);
    var x := Rescale(value, from, to);
    DivideBounds(value * t, s);
    DivideBounds(x * s, t);
    var back := x * s / t;
    assert t * back <= s * x <= t * value;
    Cancel(back, value, t);
    assert t * value < s * x + s < t * back + t + t;
    Cancel(value - 1, back, t);
  }

  /** The duty a schedule percentage stands for. */
  function PercentDuty(percent: int, bits: nat): int { (percent * MaxDuty(bits)) / 100 }

  lemma PercentDutyInRange(percent: int, bits: nat)
    requires 0 <= percent <= 100
    ensures 0 <= PercentDuty(percent, bits) <= MaxDuty(bits)
  {
    ProductMonotone(percent, 100, MaxDuty(bits));
    ProductMonotone(0, percent, MaxDuty(bits));
    DivideBounds(percent * MaxDuty(bits), 100);
  }
}
