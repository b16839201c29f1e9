/** Q8_K quantisation over exact reals, rounding halves to even (section 4.3.1 of IEEE 754-2019). */
module Quantizer {
  import opened Common
  import opened QuantSums
  import opened QuantBlocks
  import opened QuantDot
  import QuantMeaning

  // --- rounding ------------------------------------------------------------------------------

  function RoundHalfEven(v: real): int {
    var f := v.Floor;
    var rest := v - f as real;
    if rest < 0.5 then f else if rest > 0.5 then f + 1 else if f % 2 == 0 then f else f + 1
  }

  lemma RoundNear(v: real)
    ensures -0.5 <= v - RoundHalfEven(v) as real <= 0.5
  {}

  lemma RoundWithin(v: real, bound: nat)
    requires -(bound as real) <= v <= bound as real
    ensures -(bound as int) <= RoundHalfEven(v) <= bound
  {}

  lemma RoundInteger(n: int)
    ensures RoundHalfEven(n as real) == n
  {}

  lemma RoundShift(v: real, n: int)
    requires n % 2 == 0
    ensures RoundHalfEven(v + n as real) == RoundHalfEven(v) + n
  {
    assert (v + n as real).Floor == v.Floor + n;
  }

  /** The bits of an F32 integer `m` from 2^23 up to but not including 2^24: exponent 150, and the
      low 23 bits count from 2^23. */
  function IntegerBits(m: int): int {
    0x4B00_0000 + (m - 0x80_0000)
  }

  /** Rounding by adding 1.5 * 2^23. Between 2^23 and 2^24 neighbouring F32 values differ by one,
      so the addition itself rounds to an integer, halves to even; its bits hold the result. */
  function NearestInt(v: real): int {
    var bits := IntegerBits(RoundHalfEven(v + 12582912.0));
    bits % 0x80_0000 - 0x40_0000
  }

  lemma NearestIntRounds(v: real)
    requires -4194303.0 <= v <= 4194303.0
    ensures 0x80_0000 <= RoundHalfEven(v + 12582912.0) < 0x100_0000
    ensures NearestInt(v) == RoundHalfEven(v)
  {
    RoundShift(v, 12582912);
    RoundWithin(v, 4194303);
    var m := RoundHalfEven(v) + 12582912;
    assert IntegerBits(m) == 0x96 * 0x80_0000 + (m - 0x80_0000);
    LowBits(0x96, m - 0x80_0000);
  }

  lemma LowBits(k: nat, r: nat)
    requires r < 0x80_0000
    ensures (k * 0x80_0000 + r) % 0x80_0000 == r
  {}

  // --- a block -----------------------------------------------------------------------------------

  function Abs(x: real): real { if x < 0.0 then -x else x }

  /** The first value of greatest magnitude among the first `n`, or zero. */
  function Extreme(values: seq<real>, n: nat): (r: real)
    requires n <= |values|
    ensures forall i | 0 <= i < n :: Abs(values[i]) <= Abs(r)
    ensures r == 0.0 || exists i | 0 <= i < n :: values[i] == r
  {
    if n == 0 then 0.0
    else
      var before := Extreme(values, n - 1);
      if Abs(values[n - 1]) > Abs(before) then values[n - 1] else before
  }

  type Values = v: seq<real> | |v| == 256 witness seq(256, _ => 0.0)

  function Lane(max: real, value: real): int {
    if max == 0.0 then 0
    else
      var q := RoundHalfEven(-127.0 / max * value);
      if q < 127 then q else 127
  }

  function QLanes(values: Values): (r: seq<int>)
    ensures |r| == 256 && forall i | 0 <= i < 256 :: r[i] == Lane(Extreme(values, 256), values[i])
  {
    seq(256, i requires 0 <= i < 256 => Lane(Extreme(values, 256), values[i]))
  }

  /** The stored scale, 1 / (-127 / max). */
  function ScaleOf(values: Values): real {
    LaneScale(Extreme(values, 256))
  }

  lemma Quotient(max: real, value: real)
    requires max != 0.0 && Abs(value) <= Abs(max)
    ensures -127.0 <= -127.0 / max * value <= 127.0
    ensures 1.0 / (-127.0 / max) == max / -127.0
    ensures value == (max / -127.0) * (-127.0 / max * value)
  {
    var r := -127.0 / max;
    assert r * max == -127.0;
    assert r != 0.0;
    var t := r * value;
    assert t * max == -127.0 * value by {
      assert r * value * max == r * max * value;
    }
    Bound(t, max, value);
    assert 1.0 / r * r == 1.0;
    assert max / -127.0 * r == 1.0 by {
      assert max / -127.0 * r == (max * r) / -127.0;
    }
    Inverse(r, 1.0 / r, max / -127.0);
    assert (max / -127.0) * t == (max / -127.0 * r) * value;
  }

  lemma Bound(t: real, max: real, value: real)
    requires t * max == -127.0 * value && Abs(value) <= Abs(max) && max != 0.0
    ensures -127.0 <= t <= 127.0
  {
    if max > 0.0 {
      Cancel(t, max);
    } else {
      var t', m := -t, -max;
      assert t' * m == t * max;
      Cancel(t', m);
    }
  }

  lemma Cancel(t: real, m: real)
    requires m > 0.0 && -127.0 * m <= t * m <= 127.0 * m
    ensures -127.0 <= t <= 127.0
  {
    assert t > 127.0 ==> (t - 127.0) * m > 0.0;
    assert t < -127.0 ==> (-127.0 - t) * m > 0.0;
  }

  lemma Inverse(r: real, x: real, y: real)
    requires r != 0.0 && x * r == 1.0 && y * r == 1.0
    ensures x == y
  {
    assert (x - y) * r == 0.0;
  }

  /** Every lane is from -127 to 127. */
  lemma LanesInRange(values: Values, i: nat)
    requires i < 256
    ensures -127 <= QLanes(values)[i] <= 127
  {
    LaneInRange(Extreme(values, 256), values[i]);
  }

  lemma LaneInRange(max: real, value: real)
    requires Abs(value) <= Abs(max)
    ensures -127 <= Lane(max, value) <= 127
  {
    if max != 0.0 {
      RoundedFits(max, value);
    }
  }

  lemma RoundedFits(max: real, value: real)
    requires max != 0.0 && Abs(value) <= Abs(max)
    ensures -127 <= RoundHalfEven(-127.0 / max * value) <= 127
  {
    Quotient(max, value);
    RoundWithin(-127.0 / max * value, 127);
  }

  /** The cap at 127 never applies. */
  lemma LaneIsRounded(max: real, value: real)
    requires max != 0.0 && Abs(value) <= Abs(max)
    ensures Lane(max, value) == RoundHalfEven(-127.0 / max * value)
  {
    RoundedFits(max, value);
  }

  /** A lane of greatest magnitude with the sign of the extreme is exactly -127. */
  lemma ExtremeLane(values: Values, i: nat)
    requires i < 256 && values[i] == Extreme(values, 256) != 0.0
    ensures QLanes(values)[i] == -127
  {
    assert -127.0 / values[i] * values[i] == -127.0;
    RoundInteger(-127);
  }

  /** A block that is not zero has such a lane. */
  lemma ExtremeExists(values: Values) returns (i: nat)
    requires Extreme(values, 256) != 0.0
    ensures i < 256 && QLanes(values)[i] == -127
  {
    i :| 0 <= i < 256 && values[i] == Extreme(values, 256);
    ExtremeLane(values, i);
  }

  /** |x - d * q| <= |max| / 254 */
  predicate Close(x: real, d: real, q: int, max: real) {
    Abs(x - d * (q as real)) <= Abs(max) / 254.0
  }

  /** No lane is off by more than |max| / 254. */
  lemma QuantisationError(values: Values, i: nat)
    requires i < 256
    ensures Close(values[i], ScaleOf(values), QLanes(values)[i], Extreme(values, 256))
  {
    LaneError(Extreme(values, 256), values[i]);
  }

  function LaneScale(max: real): real {
    if max == 0.0 then 0.0 else 1.0 / (-127.0 / max)
  }

  lemma LaneError(max: real, value: real)
    requires Abs(value) <= Abs(max)
    ensures Close(value, LaneScale(max), Lane(max, value), max)
  {
    if max != 0.0 {
      var t := Unrounded(max, value);
      ErrorBound(LaneScale(max), t, Lane(max, value), value, max);
    }
  }

  /** The value the lane was rounded from. */
  lemma Unrounded(max: real, value: real) returns (t: real)
    requires max != 0.0 && Abs(value) <= Abs(max)
    ensures value == LaneScale(max) * t && -0.5 <= t - Lane(max, value) as real <= 0.5
    ensures Abs(LaneScale(max)) == Abs(max) / 127.0
  {
    t := -127.0 / max * value;
    Quotient(max, value);
    LaneIsRounded(max, value);
    RoundNear(t);
  }

  lemma ErrorBound(d: real, t: real, q: int, x: real, max: real)
    requires x == d * t && -0.5 <= t - q as real <= 0.5 && Abs(d) == Abs(max) / 127.0
    ensures Close(x, d, q, max)
  {
    var e := t - q as real;
    assert x - d * (q as real) == d * e;
    HalfOf(d, e);
    assert Abs(d) / 2.0 == Abs(max) / 254.0;
  }

  lemma HalfOf(d: real, e: real)
    requires -0.5 <= e <= 0.5
    ensures Abs(d * e) <= Abs(d) / 2.0
  {
    if d >= 0.0 {
      Half(d, e);
    } else {
      var d', e' := -d, -e;
      Half(d', e');
      assert d' * e' == d * e;
    }
  }

  lemma Half(d: real, e: real)
    requires d >= 0.0 && -0.5 <= e <= 0.5
    ensures d / -2.0 <= d * e <= d / 2.0
  {
    assert d * (0.5 - e) >= 0.0 && d * (e + 0.5) >= 0.0;
  }

  lemma ZeroBlock(values: Values, i: nat)
    requires i < 256 && (forall j | 0 <= j < 256 :: values[j] == 0.0)
    ensures QLanes(values)[i] == 0 && ScaleOf(values) == 0.0
  {}
}
