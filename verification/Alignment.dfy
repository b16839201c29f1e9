/** Rounding up to a power-of-two alignment, as every layout in the system does it. */
module Alignment {
  import opened Common

  predicate PowerOfTwo(a: nat) {
    a == 1 || (a > 1 && a % 2 == 0 && PowerOfTwo(a / 2))
  }

  /** `x & !(a - 1)` for a power of two `a`: the low bits of `x` cleared, one bit at a time. */
  function ClearLow(x: nat, a: nat): (r: nat)
    requires PowerOfTwo(a)
  {
    if a == 1 then x else 2 * ClearLow(x / 2, a / 2)
  }

  /** `x % a == 0` for a power of two `a`: the low bits of `x` are zero. */
  predicate Multiple(x: nat, a: nat)
    requires PowerOfTwo(a)
  {
    a == 1 || (x % 2 == 0 && Multiple(x / 2, a / 2))
  }

  lemma {:induction false} MultipleIsRemainder(x: nat, a: nat)
    requires PowerOfTwo(a)
    ensures Multiple(x, a) <==> x % a == 0
  {
    if a > 1 {
      MultipleIsRemainder(x / 2, a / 2);
      Doubled(x, a / 2);
    }
  }

  lemma Doubled(x: nat, b: nat)
    requires b > 0
    ensures x % (2 * b) == 0 <==> x % 2 == 0 && (x / 2) % b == 0
  {
    if x % 2 == 0 && (x / 2) % b == 0 {
      var k := x / 2 / b;
      assert x / 2 == b * k;
      assert x == (2 * b) * k + 0;
      Remainder(x, 2 * b, k, 0);
    }
    if x % (2 * b) == 0 {
      var k := x / (2 * b);
      assert x == 2 * (b * k);
      Remainder(x / 2, b, k, 0);
    }
  }

  lemma Remainder(x: nat, b: nat, q: nat, r: nat)
    requires r < b && x == b * q + r
    ensures x % b == r && x / b == q
  {
    var q', r' := x / b, x % b;
    assert x == b * q' + r';
    assert q' < q ==> b * (q' + 1) <= b * q;
    assert q' > q ==> b * (q + 1) <= b * q';
  }

  /** The mask rounds down to a multiple. */
  lemma {:induction false} ClearLowRounds(x: nat, a: nat)
    requires PowerOfTwo(a)
    ensures Multiple(ClearLow(x, a), a) && ClearLow(x, a) <= x < ClearLow(x, a) + a
  {
    if a > 1 {
      ClearLowRounds(x / 2, a / 2);
    }
  }

  lemma {:induction false} MultipleZero(a: nat)
    requires PowerOfTwo(a)
    ensures Multiple(0, a)
  {
    if a > 1 {
      MultipleZero(a / 2);
    }
  }

  lemma {:induction false} MultipleAdd(x: nat, y: nat, a: nat)
    requires PowerOfTwo(a) && Multiple(x, a) && Multiple(y, a)
    ensures Multiple(x + y, a)
  {
    if a > 1 {
      MultipleAdd(x / 2, y / 2, a / 2);
    }
  }

  lemma {:induction false} MultiplesApart(x: nat, y: nat, a: nat)
    requires PowerOfTwo(a) && Multiple(x, a) && Multiple(y, a) && x < y
    ensures x + a <= y
  {
    if a > 1 {
      MultiplesApart(x / 2, y / 2, a / 2);
    }
  }

  /** The multiple of `a` from `value` on that is nearest to it. */
  ghost function RoundUp(value: nat, a: nat): (r: nat)
    requires PowerOfTwo(a)
    ensures Multiple(r, a) && value <= r < value + a
  {
    ClearLowRounds(value + a - 1, a);
    assert exists r: nat :: Multiple(r, a) && value <= r < value + a by {
      assert Multiple(ClearLow(value + a - 1, a), a);
    }
    var r: nat :| Multiple(r, a) && value <= r < value + a;
    r
  }

  lemma RoundUpIs(value: nat, a: nat, r: nat)
    requires PowerOfTwo(a) && Multiple(r, a) && value <= r < value + a
    ensures RoundUp(value, a) == r
  {
    var s := RoundUp(value, a);
    if r < s {
      MultiplesApart(r, s, a);
    } else if s < r {
      MultiplesApart(s, r, a);
    }
  }

  /** `align_up`: fails when the addition before the mask overflows. */
  function AlignUp(value: nat, a: nat): (r: Option<nat>)
    requires PowerOfTwo(a)
    ensures r == None <==> value + a - 1 > U64_MAX
    ensures r.Some? ==> r.value == RoundUp(value, a) <= U64_MAX
  {
    if value + a - 1 > U64_MAX then None
    else
      ClearLowRounds(value + a - 1, a);
      RoundUpIs(value, a, ClearLow(value + a - 1, a));
      Some(ClearLow(value + a - 1, a))
  }

  datatype AlignError = InvalidAlignment | Overflow

  /** `align_up` of the sidecar format, which does not trust its alignment. */
  function CheckedAlignUp(value: nat, a: nat): (r: Result<nat, AlignError>)
    ensures r == Err(InvalidAlignment) <==> !PowerOfTwo(a)
    ensures r == Err(Overflow) <==> PowerOfTwo(a) && value + a - 1 > U64_MAX
    ensures r.Ok? ==> r.value == RoundUp(value, a) <= U64_MAX
  {
    if !PowerOfTwo(a) then Err(InvalidAlignment)
    else
      match AlignUp(value, a)
      case None => Err(Overflow)
      case Some(aligned) => Ok(aligned)
  }

  /** The result is the least multiple not below the value. */
  lemma RoundUpIsLeast(value: nat, a: nat, m: nat)
    requires PowerOfTwo(a) && Multiple(m, a) && m >= value
    ensures RoundUp(value, a) <= m
  {
    if m < RoundUp(value, a) {
      MultiplesApart(m, RoundUp(value, a), a);
    }
  }
}
