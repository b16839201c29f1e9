/** The checked entry point of the packed dot products: the same answer on every host. */
module QuantDispatch {
  import opened Common
  import opened QuantBlocks
  import opened QuantDot
  import opened QuantSimd

  datatype WeightType = KWeights(ty: KType) | IqWeights(iq: Iq) | OtherWeights {
    predicate Valid() {
      IqWeights? ==> iq.Valid()
    }

    function Bytes(): nat {
      match this
      case KWeights(ty) => ty.Bytes()
      case IqWeights(iq) => iq.Bytes()
      case OtherWeights => 0
    }
  }

  datatype DotError =
    | UnsupportedType
    | ZeroLogicalElements
    | LogicalElementsNotDivisible
    | ArithmeticOverflow
    | EncodedLengthMismatch
    | NonFiniteScale
    | NonFiniteQ8Scale

  /** A half-precision float is finite when its five exponent bits are not all ones. */
  predicate F16Finite(bits: nat) {
    bits < 0x7C00 || 0x8000 <= bits < 0xFC00
  }

  predicate BlockFinite(wt: WeightType, w: seq<byte>)
    requires |w| >= 4
  {
    F16Finite(U16(w, 0)) && (wt.KWeights? ==> F16Finite(U16(w, 2)))
  }

  ghost predicate ScalesFinite(wt: WeightType, weights: seq<byte>, n: nat)
    requires !wt.OtherWeights? && |weights| == n * wt.Bytes()
  {
    forall b | 0 <= b < n :: BlockFinite(wt, Block(weights, wt.Bytes(), n, b))
  }

  predicate Q8Finite(q8: Q8Block) {
    U32(q8, 0) < 0x7F80_0000 || 0x8000_0000 <= U32(q8, 0) < 0xFF80_0000
  }

  ghost predicate Q8ScalesFinite(q8: seq<byte>, n: nat)
    requires |q8| == n * Q8_BYTES
  {
    forall b | 0 <= b < n :: Q8Finite(Block(q8, Q8_BYTES, n, b))
  }

  /** The checks in the order they are made. */
  ghost function Check(wt: WeightType, weights: seq<byte>, q8: seq<byte>, logical: nat): (r: Option<DotError>)
    ensures r == None ==>
              !wt.OtherWeights? && |weights| == logical / 256 * wt.Bytes() && |q8| == logical / 256 * Q8_BYTES
  {
    var n := logical / 256;
    if wt.OtherWeights? then Some(UnsupportedType)
    else if logical == 0 then Some(ZeroLogicalElements)
    else if logical % 256 != 0 then Some(LogicalElementsNotDivisible)
    else if n * wt.Bytes() > USIZE_MAX then Some(ArithmeticOverflow)
    else if |weights| != n * wt.Bytes() then Some(EncodedLengthMismatch)
    else if n * Q8_BYTES > USIZE_MAX then Some(ArithmeticOverflow)
    else if |q8| != n * Q8_BYTES then Some(EncodedLengthMismatch)
    else if !ScalesFinite(wt, weights, n) then Some(NonFiniteScale)
    else if !Q8ScalesFinite(q8, n) then Some(NonFiniteQ8Scale)
    else None
  }

  /** The packed dot product of a row of any supported type. */
  ghost function PackedDot<F>(ar: Arith<F>, wt: WeightType, weights: seq<byte>, q8: seq<byte>, n: nat): F
    requires wt.Valid() && !wt.OtherWeights? && |weights| == n * wt.Bytes() && |q8| == n * Q8_BYTES
  {
    match wt
    case KWeights(ty) => KDot(ar, KFields(ty, weights, n), Q8Fields(q8, n))
    case IqWeights(iq) => IqDot(ar, iq.Iq2?, IqFields(iq, weights, n), iq.Largest(), Q8Fields(q8, n))
  }

  method CheckScales(wt: WeightType, weights: seq<byte>, n: nat) returns (finite: bool)
    requires !wt.OtherWeights? && |weights| == n * wt.Bytes()
    ensures finite == ScalesFinite(wt, weights, n)
  {
    for b := 0 to n
      invariant forall i | 0 <= i < b :: BlockFinite(wt, Block(weights, wt.Bytes(), n, i))
    {
      if !BlockFinite(wt, Block(weights, wt.Bytes(), n, b)) {
        return false;
      }
    }
    finite := true;
  }

  method CheckQ8Scales(q8: seq<byte>, n: nat) returns (finite: bool)
    requires |q8| == n * Q8_BYTES
    ensures finite == Q8ScalesFinite(q8, n)
  {
    for b := 0 to n
      invariant forall i | 0 <= i < b :: Q8Finite(Block(q8, Q8_BYTES, n, i))
    {
      if !Q8Finite(Block(q8, Q8_BYTES, n, b)) {
        return false;
      }
    }
    finite := true;
  }

  method Validate(wt: WeightType, weights: seq<byte>, q8: seq<byte>, logical: nat) returns (error: Option<DotError>)
    ensures error == Check(wt, weights, q8, logical)
  {
    if wt.OtherWeights? {
      return Some(UnsupportedType);
    }
    if logical == 0 {
      return Some(ZeroLogicalElements);
    }
    if logical % 256 != 0 {
      return Some(LogicalElementsNotDivisible);
    }
    var n := logical / 256;
    if n * wt.Bytes() > USIZE_MAX {
      return Some(ArithmeticOverflow);
    }
    if |weights| != n * wt.Bytes() {
      return Some(EncodedLengthMismatch);
    }
    if n * Q8_BYTES > USIZE_MAX {
      return Some(ArithmeticOverflow);
    }
    if |q8| != n * Q8_BYTES {
      return Some(EncodedLengthMismatch);
    }
    var finite := CheckScales(wt, weights, n);
    if !finite {
      return Some(NonFiniteScale);
    }
    finite := CheckQ8Scales(q8, n);
    error := if finite then None else Some(NonFiniteQ8Scale);
  }

  /** Whether the host has AVX2 or not, the result is the same, bit by bit: the contract does not
      depend on `avx2`, and nothing is assumed about the float operations. */
  method VecDot<F>(ar: Arith<F>, wt: WeightType, weights: seq<byte>, q8: seq<byte>, logical: nat, avx2: bool)
    returns (r: Result<F, DotError>)
    requires wt.Valid()
    ensures match Check(wt, weights, q8, logical)
            case Some(error) => r == Err(error)
            case None => r == Ok(PackedDot(ar, wt, weights, q8, logical / 256))
  {
    var error := Validate(wt, weights, q8, logical);
    if error.Some? {
      return Err(error.value);
    }
    var n, dot := logical / 256, ar.zero;
    if wt.KWeights? {
      if avx2 {
        dot := DotKAvx2(ar, wt.ty, weights, q8, n);
      } else {
        dot := DotKScalar(ar, wt.ty, weights, q8, n);
      }
    } else {
      if avx2 {
        dot := DotIqAvx2(ar, wt.iq, weights, q8, n);
      } else {
        dot := DotIqScalar(ar, wt.iq, weights, q8, n);
      }
    }
    r := Ok(dot);
  }
}
