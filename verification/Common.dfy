/** Machine widths, option types and little-endian byte encodings shared by every component. */
module Common {
  /** One byte of a file, a snapshot or a packed block. */
  type byte = n: int | 0 <= n < 256

  /** An F32 value, carried as its bit pattern: equality of two F32s means bit-identical values. */
  type F32 = n: int | 0 <= n < 0x1_0000_0000

  const USIZE_MAX: nat := 0xFFFF_FFFF_FFFF_FFFF
  const U64_MAX: nat := 0xFFFF_FFFF_FFFF_FFFF

  datatype Option<+T> = None | Some(value: T)
  datatype Result<+T, +E> = Ok(value: T) | Err(error: E)

  /** Finite exactly when the eight exponent bits (below the sign bit) are not all ones. */
  predicate IsFinite(x: F32) {
    x < 0x7F80_0000 || 0x8000_0000 <= x < 0xFF80_0000
  }

  lemma FiniteExponent(x: F32)
    ensures IsFinite(x) <==> x / 0x80_0000 % 256 != 255
  {}

  predicate AllFinite(xs: seq<F32>) {
    forall i | 0 <= i < |xs| :: IsFinite(xs[i])
  }

  /** A float where only its value and its finiteness matter, not its rounding. */
  datatype Number = Finite(value: real) | NonFinite

  ghost predicate Finites(xs: seq<Number>) {
    forall i | 0 <= i < |xs| :: xs[i].Finite?
  }

  function Reals(xs: seq<Number>): (r: seq<real>)
    requires forall i | 0 <= i < |xs| :: xs[i].Finite?
    ensures |r| == |xs| && forall i | 0 <= i < |r| :: r[i] == xs[i].value
  {
    seq(|xs|, i requires 0 <= i < |xs| => xs[i].value)
  }

  function Zeros<T>(n: nat, zero: T): (r: seq<T>)
    ensures |r| == n && forall i | 0 <= i < n :: r[i] == zero
  {
    seq(n, _ => zero)
  }

  /** The `width` low-order bytes of `n`, least significant first. */
  function Le(n: nat, width: nat): (r: seq<byte>)
    ensures |r| == width
    decreases width, n
  {
    if width == 0 then [] else [n % 256] + Le(n / 256, width - 1)
  }

  function FromLe(b: seq<byte>): nat {
    if |b| == 0 then 0 else b[0] + 256 * FromLe(b[1..])
  }

  function Pow256(width: nat): nat {
    if width == 0 then 1 else 256 * Pow256(width - 1)
  }

  lemma Pow256Values()
    ensures Pow256(4) == 0x1_0000_0000
    ensures Pow256(8) == U64_MAX + 1
  {
    assert Pow256(2) == 65536;
    assert Pow256(4) == 65536 * Pow256(2);
    assert Pow256(6) == 65536 * Pow256(4);
    assert Pow256(8) == 65536 * Pow256(6);
  }

  lemma {:induction false} LeRoundTrip(n: nat, width: nat)
    requires n < Pow256(width)
    ensures FromLe(Le(n, width)) == n
    decreases width
  {
    if width > 0 {
      LeRoundTrip(n / 256, width - 1);
      assert Le(n, width)[1..] == Le(n / 256, width - 1);
    }
  }

  lemma {:induction false} FromLeRoundTrip(b: seq<byte>)
    ensures FromLe(b) < Pow256(|b|)
    ensures Le(FromLe(b), |b|) == b
  {
    if |b| > 0 {
      FromLeRoundTrip(b[1..]);
      assert FromLe(b) % 256 == b[0] && FromLe(b) / 256 == FromLe(b[1..]);
      assert b == [b[0]] + b[1..];
    }
  }

  // --- parts of sequences ----------------------------------------------------------------

  /** `part` stands at position `at` of `xs`. */
  ghost predicate IsSlice<T>(xs: seq<T>, at: int, part: seq<T>) {
    0 <= at && at + |part| <= |xs| && xs[at..at + |part|] == part
  }

  lemma StillSlice<T>(xs: seq<T>, more: seq<T>, at: nat, part: seq<T>)
    requires IsSlice(xs, at, part)
    ensures IsSlice(xs + more, at, part)
  {
    assert (xs + more)[at..at + |part|] == xs[at..at + |part|];
  }

  lemma SliceAfter<T>(before: seq<T>, xs: seq<T>, at: nat, part: seq<T>)
    requires IsSlice(xs, at, part)
    ensures IsSlice(before + xs, |before| + at, part)
  {
    assert (before + xs)[|before| + at..|before| + at + |part|] == xs[at..at + |part|];
  }

  lemma SliceOfPart<T>(xs: seq<T>, at: nat, part: seq<T>, inner: nat, piece: seq<T>)
    requires IsSlice(xs, at, part) && IsSlice(part, inner, piece)
    ensures IsSlice(xs, at + inner, piece)
  {
    var cut := xs[at + inner..at + inner + |piece|];
    forall i | 0 <= i < |piece| ensures cut[i] == piece[i] {
      assert piece[i] == part[inner..inner + |piece|][i] == part[inner + i];
      assert part[inner + i] == xs[at..at + |part|][inner + i];
    }
  }
}
