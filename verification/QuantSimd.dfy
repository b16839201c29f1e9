/** The AVX2 dot products: the vector instructions with their 16-bit and 32-bit wrap-around, and
    the loops built on them. Every result is that of the same specification as the scalar loops. */
module QuantSimd {
  import opened Common
  import opened QuantSums
  import opened QuantBlocks
  import opened QuantDot

  // --- instructions --------------------------------------------------------------------------

  /** Two's complement 16-bit wrap-around. */
  function Wrap16(x: int): int {
    if -0x8000 <= x < 0x8000 then x else (x + 0x8000) % 0x1_0000 - 0x8000
  }

  /** `_mm256_mullo_epi16`: the low halves of sixteen products. */
  function MulLo16(u: Vector, v: Vector): (r: Vector)
    requires |u| == |v| == 16
    ensures |r| == 16 && forall l | 0 <= l < 16 :: r[l] == Wrap16(u[l] * v[l])
  {
    seq(16, l requires 0 <= l < 16 => Wrap16(u[l] * v[l]))
  }

  /** `_mm256_add_epi32` */
  function Add32(u: Vector, v: Vector): (r: Vector)
    requires |u| == |v| == 8
    ensures |r| == 8 && forall l | 0 <= l < 8 :: r[l] == Wrap32(u[l] + v[l])
  {
    seq(8, l requires 0 <= l < 8 => Wrap32(u[l] + v[l]))
  }

  /** `_mm256_madd_epi16`: products of sixteen lanes, neighbouring pairs added. */
  function Madd16(u: Vector, v: Vector): (r: Vector)
    requires |u| == |v| == 16
    ensures |r| == 8 && forall l | 0 <= l < 8 :: r[l] == Wrap32(u[2 * l] * v[2 * l] + u[2 * l + 1] * v[2 * l + 1])
  {
    seq(8, l requires 0 <= l < 8 => Wrap32(u[2 * l] * v[2 * l] + u[2 * l + 1] * v[2 * l + 1]))
  }

  // --- helpers over 32 and 16 signed bytes -------------------------------------------------------

  /** Signed bytes; sign extension to 16 bits keeps their value. */
  ghost predicate SignedBytes(xs: Vector, n: nat) {
    |xs| == n && forall l | 0 <= l < n :: -128 <= xs[l] <= 127
  }

  lemma ByteProduct(a: int, b: int)
    requires -128 <= a <= 127 && -128 <= b <= 127
    ensures -16384 <= a * b <= 16384
  {
    Bounded(if a < 0 then -a else a, b, 128, 128);
    assert a < 0 ==> a * b == -((-a) * b);
  }

  /** A product of two signed bytes always fits 16 bits. */
  lemma MulLoExact(u: Vector, v: Vector)
    requires SignedBytes(u, 16) && SignedBytes(v, 16)
    ensures MulLo16(u, v) == Times(u, v) && Within(Times(u, v), 16384)
  {
    forall l | 0 <= l < 16 ensures MulLo16(u, v)[l] == Times(u, v)[l] && -16384 <= Times(u, v)[l] <= 16384 {
      ByteProduct(u[l], v[l]);
    }
  }

  lemma AddExact(u: Vector, v: Vector, bound: nat)
    requires |u| == |v| == 8 && Within(u, bound) && Within(v, bound) && bound <= 0x2000_0000
    ensures Add32(u, v) == Add(u, v) && Within(Add(u, v), 2 * bound)
  {
    forall l | 0 <= l < 8 ensures Add32(u, v)[l] == Add(u, v)[l] {}
  }

  /** Half a row: sixteen products widened and added to the accumulators in two steps. */
  method AddSixteen(accumulated: Vector, weights: Vector, acts: Vector) returns (next: Vector)
    requires |accumulated| == 8 && Within(accumulated, 65536) && SignedBytes(weights, 16) && SignedBytes(acts, 16)
    ensures next == Add(Add(accumulated, Chunk(Times(acts, weights), 0)), Chunk(Times(acts, weights), 1))
  {
    var products := MulLo16(weights, acts);
    MulLoExact(weights, acts);
    assert products == Times(acts, weights);
    var low, high := products[..8], products[8..];
    assert low == Chunk(products, 0) && high == Chunk(products, 1);
    AddExact(accumulated, low, 65536);
    AddExact(Add(accumulated, low), high, 131072);
    next := Add32(accumulated, low);
    next := Add32(next, high);
  }

  lemma {:induction false} HalfRow(acts: Row<int>, weights: Row<int>, half: nat)
    requires SignedBytes(acts, 32) && SignedBytes(weights, 32) && half < 2
    ensures var (a, w) := (acts[16 * half..16 * half + 16], weights[16 * half..16 * half + 16]);
            Chunk(Times(a, w), 0) == Chunk(Times(acts, weights), 2 * half) &&
            Chunk(Times(a, w), 1) == Chunk(Times(acts, weights), 2 * half + 1)
  {
    var at := 16 * half;
    var a, w, all := acts[at..at + 16], weights[at..at + 16], Times(acts, weights);
    forall l | 0 <= l < 16 ensures Times(a, w)[l] == all[at + l] {
      assert a[l] == acts[at + l] && w[l] == weights[at + l];
    }
    assert Chunk(Times(a, w), 0) == Chunk(all, 2 * half);
    assert Chunk(Times(a, w), 1) == Chunk(all, 2 * half + 1);
  }

  lemma ProductsWithin(acts: Row<int>, weights: Row<int>)
    requires SignedBytes(acts, 32) && SignedBytes(weights, 32)
    ensures Within(Times(acts, weights), 16384)
  {
    forall l | 0 <= l < 32 ensures -16384 <= Times(acts, weights)[l] <= 16384 {
      ByteProduct(acts[l], weights[l]);
    }
  }

  /** Eight accumulators over 32 products: lane l holds the products l, 8 + l, 16 + l and 24 + l. */
  method LaneSums32(weights: Row<int>, acts: Row<int>) returns (lanes: Vector)
    requires SignedBytes(weights, 32) && SignedBytes(acts, 32)
    ensures lanes == Lanes(Times(acts, weights), 4)
  {
    ghost var products := Times(acts, weights);
    ProductsWithin(acts, weights);
    lanes := ZEROS;
    for half := 0 to 2
      invariant lanes == Lanes(products, 2 * half)
    {
      LanesWithin(products, 2 * half, 16384);
      HalfRow(acts, weights, half);
      TwoChunks(products, 2 * half);
      lanes := AddSixteen(lanes, weights[16 * half..16 * half + 16], acts[16 * half..16 * half + 16]);
    }
  }

  lemma TwoChunks(xs: Vector, k: nat)
    requires 8 * k + 16 <= |xs|
    ensures Lanes(xs, k + 2) == Add(Add(Lanes(xs, k), Chunk(xs, k)), Chunk(xs, k + 1))
  {
    assert Lanes(xs, k + 1) == Add(Lanes(xs, k), Chunk(xs, k));
  }

  /** `lanes.into_iter().sum()` */
  method SumLanes(lanes: Vector) returns (sum: int)
    requires |lanes| == 8 && Within(lanes, 0x100_0000)
    ensures sum == Sum(lanes, 0, 8)
  {
    sum := 0;
    for l := 0 to 8
      invariant sum == Sum(lanes, 0, l)
    {
      SumWithin(lanes, 0, l, 0x100_0000);
      sum := Wrap32(sum + lanes[l]);
    }
  }

  method Dot32(weights: Row<int>, acts: Row<int>) returns (dot: int)
    requires SignedBytes(weights, 32) && SignedBytes(acts, 32)
    ensures dot == Sum(Times(acts, weights), 0, 32)
  {
    var lanes := LaneSums32(weights, acts);
    ProductsWithin(acts, weights);
    LanesWithin(Times(acts, weights), 4, 16384);
    SumOfLanes(Times(acts, weights), 4);
    dot := SumLanes(lanes);
  }

  lemma {:induction false} PairsSum(pairs: Vector, products: Vector, n: nat)
    requires |pairs| == 8 && |products| == 16 && n <= 8
    requires forall l | 0 <= l < 8 :: pairs[l] == products[2 * l] + products[2 * l + 1]
    ensures Sum(pairs, 0, n) == Sum(products, 0, 2 * n)
  {
    if n > 0 {
      PairsSum(pairs, products, n - 1);
      assert Sum(products, 0, 2 * n) == Sum(products, 0, 2 * n - 1) + products[2 * n - 1];
    }
  }

  /** Sixteen products, added in pairs by a multiplication with ones, then summed. */
  method Dot16(weights: Vector, acts: Vector) returns (dot: int)
    requires SignedBytes(weights, 16) && SignedBytes(acts, 16)
    ensures dot == Sum(Times(acts, weights), 0, 16)
  {
    var products := MulLo16(weights, acts);
    MulLoExact(weights, acts);
    assert products == Times(acts, weights);
    var ones := seq(16, _ => 1);
    var pairs := Madd16(products, ones);
    forall l | 0 <= l < 8 ensures pairs[l] == products[2 * l] + products[2 * l + 1] && -32768 <= pairs[l] <= 32768 {}
    PairsSum(pairs, products, 8);
    dot := SumLanes(pairs);
  }

  // --- Q4_K and Q5_K ---------------------------------------------------------------------------------

  /** lane_sums[lane] += scale * raw[lane] */
  method AddScaled(sums: Vector, scale: int, raw: Vector) returns (next: Vector)
    requires |sums| == |raw| == 8 && Within(sums, 0x100_0000) && Within(Scale(scale, raw), 0x100_0000)
    ensures next == Add(sums, Scale(scale, raw))
  {
    ghost var scaled := Scale(scale, raw);
    next := sums;
    for lane := 0 to 8
      invariant |next| == 8
      invariant forall i | 0 <= i < lane :: next[i] == sums[i] + scaled[i]
      invariant forall i | lane <= i < 8 :: next[i] == sums[i]
    {
      next := next[lane := Wrap32(next[lane] + Wrap32(scale * raw[lane]))];
    }
  }

  /** Scaling four accumulated products or each of them makes no difference. */
  lemma ScaledLanes(p: KParts, a: Q8Parts, g: nat)
    requires p.Valid() && a.Valid() && g < 8
    ensures var scaled := Scale(p.scales[g], Lanes(Times(a.rows[g], p.rows[g]), 4));
            KLaneSums(p, a, g + 1) == Add(KLaneSums(p, a, g), scaled) &&
            Within(KLaneSums(p, a, g), 0x100_0000) && Within(scaled, 0x100_0000)
  {
    LanesOfScale(p.scales[g], Times(a.rows[g], p.rows[g]), 4);
    KTermsWithin(p, a, g);
    LanesWithin(KTerms(p, a, g), 4, K_TERM);
    KLaneSumsWithin(p, a, g);
  }

  method SimdLaneSums(p: KParts, a: Q8Parts) returns (sums: Vector)
    requires p.Valid() && a.Valid()
    ensures sums == KLaneSums(p, a, |p.scales|)
  {
    sums := ZEROS;
    for g := 0 to |p.scales|
      invariant sums == KLaneSums(p, a, g)
    {
      var raw := LaneSums32(p.rows[g], a.rows[g]);
      ScaledLanes(p, a, g);
      sums := AddScaled(sums, p.scales[g], raw);
    }
  }

  method DotKAvx2<F>(ar: Arith<F>, ty: KType, weights: seq<byte>, q8: seq<byte>, n: nat) returns (r: F)
    requires |weights| == n * ty.Bytes() && |q8| == n * Q8_BYTES
    ensures r == KDot(ar, KFields(ty, weights, n), Q8Fields(q8, n))
  {
    ghost var ps, qs := KFields(ty, weights, n), Q8Fields(q8, n);
    var acc := KStart(ar);
    for b := 0 to n
      invariant acc == KRun(ar, ps, qs, b)
    {
      var p := UnpackK(ty, Block(weights, ty.Bytes(), n, b));
      var a := Q8PartsOf(Block(q8, Q8_BYTES, n, b));
      var minimum := MinimumSum(p, a);
      var lanes := SimdLaneSums(p, a);
      acc := KStep(ar, acc, p, a, lanes, minimum);
    }
    r := KFinish(ar, acc);
  }

  // --- IQ2_S and IQ3_S --------------------------------------------------------------------------------

  /** The signed grid of one row, as signed bytes. */
  method SignedGrid(p: IqParts, largest: nat, g: nat) returns (row: Row<int>)
    requires p.Valid(largest) && largest <= 127 && g < 8
    ensures row == Signed(p, largest, g) && SignedBytes(row, 32)
  {
    row := [];
    for l := 0 to 32
      invariant |row| == l && forall i | 0 <= i < l :: row[i] == p.mags[g][i] * p.signs[g][i]
    {
      row := row + [if p.signs[g][l] == 1 then p.mags[g][l] else -p.mags[g][l]];
    }
  }

  lemma HalfTerms(acts: Row<int>, row: Row<int>, half: nat)
    requires |acts| == |row| == 32 && half < 2
    ensures Sum(Times(acts[16 * half..16 * half + 16], row[16 * half..16 * half + 16]), 0, 16) ==
            Sum(Times(acts, row), 16 * half, 16)
  {
    assert Times(acts[16 * half..16 * half + 16], row[16 * half..16 * half + 16]) ==
      Times(acts, row)[16 * half..16 * half + 16];
    SumOfSlice(Times(acts, row), 16 * half, 16, 16);
  }

  method SimdRow2(p: IqParts, a: Q8Parts, g: nat) returns (sum: int)
    requires p.Valid(43) && a.Valid() && g < 8
    ensures sum == IqRowSum(true, p, 43, a, g)
  {
    var row := SignedGrid(p, 43, g);
    var acts := a.rows[g];
    HalvesWithin(p, a, g);
    HalfTerms(acts, row, 0);
    HalfTerms(acts, row, 1);
    var sum1 := Dot16(row[0..16], acts[0..16]);
    var sum2 := Dot16(row[16..32], acts[16..32]);
    sum := Wrap32(Wrap32((1 + 2 * p.nibbles[g][0]) * sum1) + Wrap32((1 + 2 * p.nibbles[g][1]) * sum2));
  }

  method SimdRow3(p: IqParts, a: Q8Parts, g: nat) returns (sum: int)
    requires p.Valid(15) && a.Valid() && g < 8
    ensures sum == IqRowSum(false, p, 15, a, g)
  {
    var row := SignedGrid(p, 15, g);
    RowWithin3(p, a, g);
    var dot := Dot32(row, a.rows[g]);
    sum := Wrap32(dot * (1 + 2 * p.nibbles[g][0]));
  }

  method SimdBlock(two: bool, p: IqParts, a: Q8Parts) returns (sum: int)
    requires p.Valid(Largest(two)) && a.Valid()
    ensures sum == IqBlockSum(two, p, Largest(two), a, |p.nibbles|)
  {
    sum := 0;
    for g := 0 to |p.nibbles|
      invariant sum == IqBlockSum(two, p, Largest(two), a, g)
    {
      IqBlockWithin(two, p, a, g);
      IqRowWithin(two, p, a, g);
      var row;
      if two {
        row := SimdRow2(p, a, g);
      } else {
        row := SimdRow3(p, a, g);
      }
      sum := Wrap32(sum + row);
    }
  }

  method DotIqAvx2<F>(ar: Arith<F>, iq: Iq, weights: seq<byte>, q8: seq<byte>, n: nat) returns (r: F)
    requires iq.Valid() && |weights| == n * iq.Bytes() && |q8| == n * Q8_BYTES
    ensures r == IqDot(ar, iq.Iq2?, IqFields(iq, weights, n), iq.Largest(), Q8Fields(q8, n))
  {
    ghost var ps, qs := IqFields(iq, weights, n), Q8Fields(q8, n);
    var sum := ar.zero;
    for b := 0 to n
      invariant sum == IqRun(ar, iq.Iq2?, ps, iq.Largest(), qs, b)
    {
      var p := UnpackIq(iq, Block(weights, iq.Bytes(), n, b));
      var a := Q8PartsOf(Block(q8, Q8_BYTES, n, b));
      var blockSum := SimdBlock(iq.Iq2?, p, a);
      sum := IqStep(ar, sum, p, a, blockSum);
    }
    r := IqFinish(ar, iq.Iq2?, sum);
  }
}
