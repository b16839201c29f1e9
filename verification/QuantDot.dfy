/** The packed dot products: what they compute from the fields of their blocks, and the scalar
    loops that compute it. */
module QuantDot {
  import opened Common
  import opened QuantSums
  import opened QuantBlocks

  /** Two's complement 32-bit wrap-around. */
  function Wrap32(x: int): int {
    if -0x8000_0000 <= x < 0x8000_0000 then x else (x + 0x8000_0000) % 0x1_0000_0000 - 0x8000_0000
  }

  lemma BlockFits(b: nat, n: nat, size: nat)
    requires b < n
    ensures 0 <= b * size && b * size + size <= n * size
  {
    assert (b + 1) * size <= n * size;
  }

  function Block(bytes: seq<byte>, size: nat, n: nat, b: nat): (r: seq<byte>)
    requires |bytes| == n * size && b < n
    ensures |r| == size
  {
    BlockFits(b, n, size);
    bytes[b * size..b * size + size]
  }

  lemma Bounded(a: int, b: int, most: nat, bound: nat)
    requires 0 <= a <= most && 0 - bound <= b <= bound
    ensures 0 - most * bound <= a * b <= most * bound
  {
    assert a * b <= a * bound && a * (0 - bound) <= a * b;
    assert a * bound <= most * bound;
  }

  lemma Associate(a: int, b: int, c: int)
    ensures a * b * c == a * (b * c) && b * c == c * b
  {}

  // --- Q4_K and Q5_K: eight integer accumulators and a minimum ---------------------------------

  function KTerms(p: KParts, a: Q8Parts, g: nat): (r: Row<int>)
    requires p.Valid() && a.Valid() && g < 8
    ensures |r| == 32
  {
    Scale(p.scales[g], Times(a.rows[g], p.rows[g]))
  }

  /** The accumulators after the first `rows` rows. */
  function KLaneSums(p: KParts, a: Q8Parts, rows: nat): (r: Vector)
    requires p.Valid() && a.Valid() && rows <= 8
    ensures |r| == 8
  {
    if rows == 0 then ZEROS else Add(KLaneSums(p, a, rows - 1), Lanes(KTerms(p, a, rows - 1), 4))
  }

  function KMinimumSum(p: KParts, a: Q8Parts, groups: nat): int
    requires p.Valid() && a.Valid() && groups <= 16
  {
    if groups == 0 then 0 else KMinimumSum(p, a, groups - 1) + a.sums[groups - 1] * p.mins[(groups - 1) / 2]
  }

  /** 63 * 128 * 31 */
  const K_TERM: nat := 249984

  lemma TermWithin(scale: int, act: int, quant: int)
    requires 0 <= scale < 64 && -128 <= act <= 127 && 0 <= quant < 32
    ensures -8064 <= scale * act <= 8064 && 0 - K_TERM <= scale * (act * quant) <= K_TERM
    ensures scale * act * quant == scale * (act * quant)
  {
    Bounded(scale, act, 63, 128);
    Bounded(quant, act, 31, 128);
    Bounded(scale, act * quant, 63, 3968);
    Associate(scale, act, quant);
  }

  lemma KTermsWithin(p: KParts, a: Q8Parts, g: nat)
    requires p.Valid() && a.Valid() && g < 8
    ensures Within(KTerms(p, a, g), K_TERM)
  {
    var terms := KTerms(p, a, g);
    forall l | 0 <= l < 32 ensures 0 - K_TERM <= terms[l] <= K_TERM {
      TermWithin(p.scales[g], a.rows[g][l], p.rows[g][l]);
    }
  }

  /** All accumulators stay below 2^24, so their conversion to F32 is exact. */
  lemma {:induction false} KLaneSumsWithin(p: KParts, a: Q8Parts, rows: nat)
    requires p.Valid() && a.Valid() && rows <= 8
    ensures Within(KLaneSums(p, a, rows), rows * 999936) && rows * 999936 < 0x100_0000
  {
    if rows > 0 {
      KLaneSumsWithin(p, a, rows - 1);
      KTermsWithin(p, a, rows - 1);
      LanesWithin(KTerms(p, a, rows - 1), 4, K_TERM);
    }
  }

  /** The innermost loop: one chunk of eight lanes. */
  method ScalarChunk(sums: Vector, scale: int, acts: Row<int>, quants: Row<int>, k: nat) returns (next: Vector)
    requires |sums| == 8 && Within(sums, 0x200_0000) && 0 <= scale < 64 && |acts| == |quants| == 32 && k < 4
    requires forall l | 0 <= l < 32 :: -128 <= acts[l] <= 127 && 0 <= quants[l] < 32
    ensures next == Add(sums, Chunk(Scale(scale, Times(acts, quants)), k))
  {
    ghost var terms := Scale(scale, Times(acts, quants));
    next := sums;
    for lane := 0 to 8
      invariant |next| == 8
      invariant forall i | 0 <= i < lane :: next[i] == sums[i] + Chunk(terms, k)[i]
      invariant forall i | lane <= i < 8 :: next[i] == sums[i]
    {
      var act, quant := acts[8 * k + lane], quants[8 * k + lane];
      TermWithin(scale, act, quant);
      assert Chunk(terms, k)[lane] == terms[8 * k + lane] == scale * (act * quant);
      next := next[lane := Wrap32(next[lane] + Wrap32(Wrap32(scale * act) * quant))];
    }
  }

  lemma KPartialWithin(p: KParts, a: Q8Parts, g: nat, k: nat)
    requires p.Valid() && a.Valid() && g < 8 && k <= 4
    ensures Within(Add(KLaneSums(p, a, g), Lanes(KTerms(p, a, g), k)), 0x200_0000)
  {
    KLaneSumsWithin(p, a, g);
    KTermsWithin(p, a, g);
    LanesWithin(KTerms(p, a, g), k, K_TERM);
  }

  method ScalarRow(p: KParts, a: Q8Parts, g: nat, sums: Vector) returns (next: Vector)
    requires p.Valid() && a.Valid() && g < 8 && sums == KLaneSums(p, a, g)
    ensures next == KLaneSums(p, a, g + 1)
  {
    ghost var terms := KTerms(p, a, g);
    next := sums;
    assert Add(sums, ZEROS) == sums;
    for k := 0 to 4
      invariant next == Add(sums, Lanes(terms, k))
    {
      KPartialWithin(p, a, g, k);
      NextChunk(sums, terms, k);
      next := ScalarChunk(next, p.scales[g], a.rows[g], p.rows[g], k);
    }
  }

  lemma NextChunk(sums: Vector, terms: Row<int>, k: nat)
    requires |sums| == 8 && 8 * k + 8 <= |terms|
    ensures Add(Add(sums, Lanes(terms, k)), Chunk(terms, k)) == Add(sums, Lanes(terms, k + 1))
  {
    AddAssociates(sums, Lanes(terms, k), Chunk(terms, k));
  }

  method ScalarLaneSums(p: KParts, a: Q8Parts) returns (sums: Vector)
    requires p.Valid() && a.Valid()
    ensures sums == KLaneSums(p, a, |p.scales|)
  {
    sums := ZEROS;
    for g := 0 to |p.scales|
      invariant sums == KLaneSums(p, a, g)
    {
      sums := ScalarRow(p, a, g, sums);
    }
  }

  lemma {:induction false} KMinimumWithin(p: KParts, a: Q8Parts, groups: nat)
    requires p.Valid() && a.Valid() && groups <= 16
    ensures 0 - groups * 2064384 <= KMinimumSum(p, a, groups) <= groups * 2064384
  {
    if groups > 0 {
      KMinimumWithin(p, a, groups - 1);
      MinimumTerm(a.sums[groups - 1], p.mins[(groups - 1) / 2]);
    }
  }

  lemma MinimumTerm(sum: int, min: int)
    requires -32768 <= sum <= 32767 && 0 <= min < 64
    ensures -2064384 <= sum * min <= 2064384
  {
    Bounded(min, sum, 63, 32768);
  }

  method MinimumSum(p: KParts, a: Q8Parts) returns (sum: int)
    requires p.Valid() && a.Valid()
    ensures sum == KMinimumSum(p, a, |a.sums|)
  {
    sum := 0;
    for group := 0 to |a.sums|
      invariant sum == KMinimumSum(p, a, group)
    {
      KMinimumWithin(p, a, group);
      MinimumTerm(a.sums[group], p.mins[group / 2]);
      sum := Wrap32(sum + Wrap32(a.sums[group] * p.mins[group / 2]));
    }
  }

  // --- Q4_K and Q5_K: the float part, shared by both paths ------------------------------------

  datatype KAcc<F> = KAcc(sums: seq<F>, sum: F)

  function KStart<F>(ar: Arith<F>): (r: KAcc<F>)
    ensures |r.sums| == 8
  {
    KAcc(seq(8, _ => ar.zero), ar.zero)
  }

  function KStep<F>(ar: Arith<F>, acc: KAcc<F>, p: KParts, a: Q8Parts, lanes: Vector, minimum: int): (r: KAcc<F>)
    requires |acc.sums| == 8 && |lanes| == 8
    ensures |r.sums| == 8
  {
    var d8 := ar.ofF32(a.d);
    var scale, minimumScale := ar.mul(ar.ofF16(p.d), d8), ar.mul(ar.ofF16(p.dmin), d8);
    KAcc(seq(8, l requires 0 <= l < 8 => ar.add(acc.sums[l], ar.mul(scale, ar.ofInt(lanes[l])))),
         ar.sub(acc.sum, ar.mul(minimumScale, ar.ofInt(minimum))))
  }

  /** The fields of the blocks of a row. */
  ghost predicate KRowValid(ps: seq<KParts>, qs: seq<Q8Parts>) {
    |ps| == |qs| && (forall b | 0 <= b < |ps| :: ps[b].Valid()) && forall b | 0 <= b < |qs| :: qs[b].Valid()
  }

  ghost function KRun<F>(ar: Arith<F>, ps: seq<KParts>, qs: seq<Q8Parts>, blocks: nat): (r: KAcc<F>)
    requires KRowValid(ps, qs) && blocks <= |ps|
    ensures |r.sums| == 8
    decreases blocks
  {
    if blocks == 0 then KStart(ar)
    else
      var (p, a) := (ps[blocks - 1], qs[blocks - 1]);
      KStep(ar, KRun(ar, ps, qs, blocks - 1), p, a, KLaneSums(p, a, |p.scales|), KMinimumSum(p, a, |a.sums|))
  }

  function FoldAdd<F>(ar: Arith<F>, start: F, xs: seq<F>, n: nat): F
    requires n <= |xs|
  {
    if n == 0 then start else ar.add(FoldAdd(ar, start, xs, n - 1), xs[n - 1])
  }

  ghost function KFields(ty: KType, weights: seq<byte>, n: nat): (r: seq<KParts>)
    requires |weights| == n * ty.Bytes()
    ensures |r| == n && forall b | 0 <= b < n :: r[b] == KPartsOf(ty, Block(weights, ty.Bytes(), n, b)) && r[b].Valid()
  {
    seq(n, b requires 0 <= b < n => KPartsOf(ty, Block(weights, ty.Bytes(), n, b)))
  }

  ghost function Q8Fields(q8: seq<byte>, n: nat): (r: seq<Q8Parts>)
    requires |q8| == n * Q8_BYTES
    ensures |r| == n && forall b | 0 <= b < n :: r[b] == Q8PartsOf(Block(q8, Q8_BYTES, n, b)) && r[b].Valid()
  {
    seq(n, b requires 0 <= b < n => Q8PartsOf(Block(q8, Q8_BYTES, n, b)))
  }

  /** The packed dot product of a Q4_K or Q5_K row. */
  ghost function KDot<F>(ar: Arith<F>, ps: seq<KParts>, qs: seq<Q8Parts>): F
    requires KRowValid(ps, qs)
  {
    var acc := KRun(ar, ps, qs, |ps|);
    FoldAdd(ar, acc.sum, acc.sums, |acc.sums|)
  }

  method KFinish<F>(ar: Arith<F>, acc: KAcc<F>) returns (sum: F)
    requires |acc.sums| == 8
    ensures sum == FoldAdd(ar, acc.sum, acc.sums, |acc.sums|)
  {
    sum := acc.sum;
    for lane := 0 to |acc.sums|
      invariant sum == FoldAdd(ar, acc.sum, acc.sums, lane)
    {
      sum := ar.add(sum, acc.sums[lane]);
    }
  }

  method DotKScalar<F>(ar: Arith<F>, ty: KType, weights: seq<byte>, q8: seq<byte>, n: nat) returns (r: F)
    requires |weights| == n * ty.Bytes() && |q8| == n * Q8_BYTES
    ensures r == KDot(ar, KFields(ty, weights, n), Q8Fields(q8, n))
  {
    ghost var ps, qs := KFields(ty, weights, n), Q8Fields(q8, n);
    var acc := KStart(ar);
    for b := 0 to n
      invariant acc == KRun(ar, ps, qs, b)
    {
      var p := UnpackK(ty, Block(weights, ty.Bytes(), n, b));
      var a := Q8PartsOf(Block(q8, Q8_BYTES, n, b));
      var minimum := MinimumSum(p, a);
      var lanes := ScalarLaneSums(p, a);
      acc := KStep(ar, acc, p, a, lanes, minimum);
    }
    r := KFinish(ar, acc);
  }

  // --- IQ2_S and IQ3_S ------------------------------------------------------------------------

  function Signed(p: IqParts, largest: nat, g: nat): (r: Row<int>)
    requires p.Valid(largest) && g < 8
    ensures |r| == 32 && Within(r, largest)
  {
    var r := Times(p.mags[g], p.signs[g]);
    assert forall l | 0 <= l < 32 :: r[l] == p.mags[g][l] * p.signs[g][l];
    r
  }

  function IqTerms(p: IqParts, largest: nat, a: Q8Parts, g: nat): (r: Row<int>)
    requires p.Valid(largest) && a.Valid() && g < 8
    ensures |r| == 32
  {
    Times(a.rows[g], Signed(p, largest, g))
  }

  /** What row `g` adds to the block sum: IQ2_S (`two`) scales half rows, IQ3_S whole rows. */
  function IqRowSum(two: bool, p: IqParts, largest: nat, a: Q8Parts, g: nat): int
    requires p.Valid(largest) && a.Valid() && g < 8
  {
    var terms := IqTerms(p, largest, a, g);
    if two then (1 + 2 * p.nibbles[g][0]) * Sum(terms, 0, 16) + (1 + 2 * p.nibbles[g][1]) * Sum(terms, 16, 16)
    else Sum(terms, 0, 32) * (1 + 2 * p.nibbles[g][0])
  }

  function IqBlockSum(two: bool, p: IqParts, largest: nat, a: Q8Parts, rows: nat): int
    requires p.Valid(largest) && a.Valid() && rows <= 8
  {
    if rows == 0 then 0 else IqBlockSum(two, p, largest, a, rows - 1) + IqRowSum(two, p, largest, a, rows - 1)
  }

  ghost predicate IqRowValid(ps: seq<IqParts>, largest: nat, qs: seq<Q8Parts>) {
    |ps| == |qs| && (forall b | 0 <= b < |ps| :: ps[b].Valid(largest)) && forall b | 0 <= b < |qs| :: qs[b].Valid()
  }

  function IqStep<F>(ar: Arith<F>, sum: F, p: IqParts, a: Q8Parts, blockSum: int): F {
    ar.add(sum, ar.mul(ar.mul(ar.ofF16(p.d), ar.ofF32(a.d)), ar.ofInt(blockSum)))
  }

  ghost function IqRun<F>(ar: Arith<F>, two: bool, ps: seq<IqParts>, largest: nat, qs: seq<Q8Parts>, blocks: nat): F
    requires IqRowValid(ps, largest, qs) && blocks <= |ps|
    decreases blocks
  {
    if blocks == 0 then ar.zero
    else
      var (p, a) := (ps[blocks - 1], qs[blocks - 1]);
      IqStep(ar, IqRun(ar, two, ps, largest, qs, blocks - 1), p, a, IqBlockSum(two, p, largest, a, |p.nibbles|))
  }

  function IqFinish<F>(ar: Arith<F>, two: bool, sum: F): F {
    if two then ar.mul(ar.eighth, sum) else sum
  }

  ghost function IqFields(iq: Iq, weights: seq<byte>, n: nat): (r: seq<IqParts>)
    requires iq.Valid() && |weights| == n * iq.Bytes()
    ensures |r| == n &&
            forall b | 0 <= b < n :: r[b] == IqPartsOf(iq, Block(weights, iq.Bytes(), n, b)) && r[b].Valid(iq.Largest())
  {
    seq(n, b requires 0 <= b < n => IqPartsOf(iq, Block(weights, iq.Bytes(), n, b)))
  }

  /** The packed dot product of an IQ2_S or IQ3_S row. */
  ghost function IqDot<F>(ar: Arith<F>, two: bool, ps: seq<IqParts>, largest: nat, qs: seq<Q8Parts>): F
    requires IqRowValid(ps, largest, qs)
  {
    IqFinish(ar, two, IqRun(ar, two, ps, largest, qs, |ps|))
  }

  lemma SignedTerm(act: int, mag: int, sign: int, largest: nat)
    requires -128 <= act <= 127 && 0 <= mag <= largest && (sign == 1 || sign == -1)
    ensures 0 - largest * 128 <= act * mag <= largest * 128
    ensures act * mag * sign == act * (mag * sign)
    ensures 0 - largest * 128 <= act * (mag * sign) <= largest * 128
  {
    Bounded(mag, act, largest, 128);
    assert act * mag * -1 == act * (mag * -1);
  }

  lemma IqTermsWithin(p: IqParts, largest: nat, a: Q8Parts, g: nat)
    requires p.Valid(largest) && a.Valid() && g < 8
    ensures Within(IqTerms(p, largest, a, g), largest * 128)
  {
    var terms := IqTerms(p, largest, a, g);
    forall l | 0 <= l < 32 ensures 0 - largest * 128 <= terms[l] <= largest * 128 {
      SignedTerm(a.rows[g][l], p.mags[g][l], p.signs[g][l], largest);
    }
  }

  lemma ScaledWithin(scale: int, sum: int, bound: nat)
    requires 0 <= scale <= 31 && 0 - bound <= sum <= bound
    ensures 0 - 31 * bound <= scale * sum <= 31 * bound
  {
    Bounded(scale, sum, 31, bound);
  }

  lemma HalvesWithin(p: IqParts, a: Q8Parts, g: nat)
    requires p.Valid(43) && a.Valid() && g < 8
    ensures var terms := IqTerms(p, 43, a, g);
            var s1, s2 := (1 + 2 * p.nibbles[g][0]) * Sum(terms, 0, 16), (1 + 2 * p.nibbles[g][1]) * Sum(terms, 16, 16);
            Within(terms, 5504) && -2729984 <= s1 <= 2729984 && -2729984 <= s2 <= 2729984
  {
    var terms := IqTerms(p, 43, a, g);
    IqTermsWithin(p, 43, a, g);
    SumWithin(terms, 0, 16, 5504);
    SumWithin(terms, 16, 16, 5504);
    ScaledWithin(1 + 2 * p.nibbles[g][0], Sum(terms, 0, 16), 88064);
    ScaledWithin(1 + 2 * p.nibbles[g][1], Sum(terms, 16, 16), 88064);
  }

  lemma RowWithin3(p: IqParts, a: Q8Parts, g: nat)
    requires p.Valid(15) && a.Valid() && g < 8
    ensures Within(IqTerms(p, 15, a, g), 1920) && -1904640 <= IqRowSum(false, p, 15, a, g) <= 1904640
  {
    var terms := IqTerms(p, 15, a, g);
    IqTermsWithin(p, 15, a, g);
    SumWithin(terms, 0, 32, 1920);
    ScaledWithin(1 + 2 * p.nibbles[g][0], Sum(terms, 0, 32), 61440);
    Associate(1, 1 + 2 * p.nibbles[g][0], Sum(terms, 0, 32));
  }

  function Largest(two: bool): nat { if two then 43 else 15 }

  function RowBound(two: bool): nat { if two then 5459968 else 1904640 }

  /** Each row adds at most 2 * 31 * 16 * 128 * 43 (IQ2_S) or 31 * 32 * 128 * 15 (IQ3_S). */
  lemma IqRowWithin(two: bool, p: IqParts, a: Q8Parts, g: nat)
    requires p.Valid(Largest(two)) && a.Valid() && g < 8
    ensures 0 - RowBound(two) <= IqRowSum(two, p, Largest(two), a, g) <= RowBound(two)
  {
    if two {
      HalvesWithin(p, a, g);
    } else {
      RowWithin3(p, a, g);
    }
  }

  /** Block sums fit 32 bits; those of IQ3_S stay below 2^24. */
  lemma {:induction false} IqBlockWithin(two: bool, p: IqParts, a: Q8Parts, rows: nat)
    requires p.Valid(Largest(two)) && a.Valid() && rows <= 8
    ensures 0 - rows * RowBound(two) <= IqBlockSum(two, p, Largest(two), a, rows) <= rows * RowBound(two)
    ensures !two ==> -0x100_0000 < IqBlockSum(two, p, Largest(two), a, rows) < 0x100_0000
  {
    if rows > 0 {
      IqBlockWithin(two, p, a, rows - 1);
      IqRowWithin(two, p, a, rows - 1);
    }
  }

  /** One lane: activation times grid value times sign. */
  method ScalarLane(sum: int, act: int, mag: int, sign: int) returns (next: int)
    requires -0x80_0000 <= sum <= 0x80_0000 && -128 <= act <= 127 && 0 <= mag <= 43 && (sign == 1 || sign == -1)
    ensures next == sum + act * (mag * sign)
  {
    SignedTerm(act, mag, sign, 43);
    next := Wrap32(sum + Wrap32(Wrap32(act * mag) * sign));
  }

  /** Eight lanes of IQ2_S, in order. */
  method ScalarOctet2(p: IqParts, a: Q8Parts, g: nat, oct: nat, sum: int, ghost terms: Row<int>) returns (next: int)
    requires p.Valid(43) && a.Valid() && g < 8 && oct < 4 && -0x40_0000 <= sum <= 0x40_0000
    requires terms == IqTerms(p, 43, a, g) && Within(terms, 5504)
    ensures next == sum + Sum(terms, 8 * oct, 8)
  {
    next := sum;
    for l := 0 to 8
      invariant next == sum + Sum(terms, 8 * oct, l)
    {
      SumWithin(terms, 8 * oct, l, 5504);
      var i := 8 * oct + l;
      next := ScalarLane(next, a.rows[g][i], p.mags[g][i], p.signs[g][i]);
    }
  }

  /** xs[from] + xs[from + 4] + xs[from + 1] + xs[from + 5] + ..., `n` pairs */
  function PairSum(xs: Row<int>, from: nat, n: nat): int
    requires n <= 4 && from + 8 <= |xs|
  {
    if n == 0 then 0 else PairSum(xs, from, n - 1) + xs[from + n - 1] + xs[from + n - 1 + 4]
  }

  lemma {:induction false} PairSumIs(xs: Row<int>, from: nat, n: nat)
    requires n <= 4 && from + 8 <= |xs|
    ensures PairSum(xs, from, n) == Sum(xs, from, n) + Sum(xs, from + 4, n)
  {
    if n > 0 {
      PairSumIs(xs, from, n - 1);
    }
  }

  lemma {:induction false} AllPairs(xs: Row<int>, from: nat)
    requires from + 8 <= |xs|
    ensures PairSum(xs, from, 4) == Sum(xs, from, 8)
  {
    PairSumIs(xs, from, 4);
    SumSplit(xs, from, 4, 4);
  }

  lemma PairSumWithin(xs: Row<int>, from: nat, n: nat)
    requires Within(xs, 1920) && from + 8 <= |xs| && n <= 4
    ensures -15360 <= PairSum(xs, from, n) <= 15360
  {
    PairSumIs(xs, from, n);
    SumWithin(xs, from, n, 1920);
    SumWithin(xs, from + 4, n, 1920);
  }

  /** Eight lanes of IQ3_S: lanes l and l + 4 are added together. */
  method ScalarOctet3(p: IqParts, a: Q8Parts, g: nat, oct: nat, sum: int, ghost terms: Row<int>) returns (next: int)
    requires p.Valid(15) && a.Valid() && g < 8 && oct < 4 && -0x40_0000 <= sum <= 0x40_0000
    requires terms == IqTerms(p, 15, a, g) && Within(terms, 1920)
    ensures next == sum + Sum(terms, 8 * oct, 8)
  {
    next := sum;
    for l := 0 to 4
      invariant next == sum + PairSum(terms, 8 * oct, l)
    {
      PairSumWithin(terms, 8 * oct, l);
      var i := 8 * oct + l;
      next := ScalarLane(next, a.rows[g][i], p.mags[g][i], p.signs[g][i]);
      next := ScalarLane(next, a.rows[g][i + 4], p.mags[g][i + 4], p.signs[g][i + 4]);
    }
    AllPairs(terms, 8 * oct);
  }

  lemma NextOctet(terms: Row<int>, from: nat, k: nat)
    requires |terms| == 32 && Within(terms, 5504) && from + 8 * k + 8 <= 32
    ensures Sum(terms, from, 8 * k + 8) == Sum(terms, from, 8 * k) + Sum(terms, from + 8 * k, 8)
    ensures -0x40_0000 <= Sum(terms, from, 8 * k) <= 0x40_0000
  {
    SumSplit(terms, from, 8 * k, 8);
    SumWithin(terms, from, 8 * k, 5504);
  }

  /** The first two octets go to one sum, the last two to the other. */
  method HalfSums(p: IqParts, a: Q8Parts, g: nat, ghost terms: Row<int>) returns (sum1: int, sum2: int)
    requires p.Valid(43) && a.Valid() && g < 8 && terms == IqTerms(p, 43, a, g) && Within(terms, 5504)
    ensures sum1 == Sum(terms, 0, 16) && sum2 == Sum(terms, 16, 16)
  {
    sum1, sum2 := 0, 0;
    for oct := 0 to 4
      invariant sum1 == Sum(terms, 0, if oct < 2 then 8 * oct else 16)
      invariant sum2 == Sum(terms, 16, if oct < 2 then 0 else 8 * (oct - 2))
    {
      if oct / 2 == 0 {
        NextOctet(terms, 0, oct);
        sum1 := ScalarOctet2(p, a, g, oct, sum1, terms);
      } else {
        NextOctet(terms, 16, oct - 2);
        sum2 := ScalarOctet2(p, a, g, oct, sum2, terms);
      }
    }
  }

  method ScalarRow2(p: IqParts, a: Q8Parts, g: nat) returns (row: int)
    requires p.Valid(43) && a.Valid() && g < 8
    ensures row == IqRowSum(true, p, 43, a, g)
  {
    HalvesWithin(p, a, g);
    var sum1, sum2 := HalfSums(p, a, g, IqTerms(p, 43, a, g));
    row := Wrap32(Wrap32((1 + 2 * p.nibbles[g][0]) * sum1) + Wrap32((1 + 2 * p.nibbles[g][1]) * sum2));
  }

  method ScalarRow3(p: IqParts, a: Q8Parts, g: nat) returns (row: int)
    requires p.Valid(15) && a.Valid() && g < 8
    ensures row == IqRowSum(false, p, 15, a, g)
  {
    ghost var terms := IqTerms(p, 15, a, g);
    RowWithin3(p, a, g);
    var sum := 0;
    for oct := 0 to 4
      invariant sum == Sum(terms, 0, 8 * oct)
    {
      NextOctet(terms, 0, oct);
      sum := ScalarOctet3(p, a, g, oct, sum, terms);
    }
    row := Wrap32(sum * (1 + 2 * p.nibbles[g][0]));
  }

  method ScalarBlock(two: bool, p: IqParts, a: Q8Parts) returns (sum: int)
    requires p.Valid(Largest(two)) && a.Valid()
    ensures sum == IqBlockSum(two, p, Largest(two), a, |p.nibbles|)
  {
    sum := 0;
    for g := 0 to |p.nibbles|
      invariant sum == IqBlockSum(two, p, Largest(two), a, g)
    {
      IqBlockWithin(two, p, a, g);
      IqRowWithin(two, p, a, g);
      var row;
      if two {
        row := ScalarRow2(p, a, g);
      } else {
        row := ScalarRow3(p, a, g);
      }
      sum := Wrap32(sum + row);
    }
  }

  method DotIqScalar<F>(ar: Arith<F>, iq: Iq, weights: seq<byte>, q8: seq<byte>, n: nat) returns (r: F)
    requires iq.Valid() && |weights| == n * iq.Bytes() && |q8| == n * Q8_BYTES
    ensures r == IqDot(ar, iq.Iq2?, IqFields(iq, weights, n), iq.Largest(), Q8Fields(q8, n))
  {
    ghost var ps, qs := IqFields(iq, weights, n), Q8Fields(q8, n);
    var sum := ar.zero;
    for b := 0 to n
      invariant sum == IqRun(ar, iq.Iq2?, ps, iq.Largest(), qs, b)
    {
      var p := UnpackIq(iq, Block(weights, iq.Bytes(), n, b));
      var a := Q8PartsOf(Block(q8, Q8_BYTES, n, b));
      var blockSum := ScalarBlock(iq.Iq2?, p, a);
      sum := IqStep(ar, sum, p, a, blockSum);
    }
    r := IqFinish(ar, iq.Iq2?, sum);
  }
}
