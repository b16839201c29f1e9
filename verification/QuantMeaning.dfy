/** Over exact reals, a packed dot product is the sum of decoded weight times activation. */
module QuantMeaning {
  import opened Common
  import opened QuantSums
  import opened QuantBlocks
  import opened QuantDot

  /** The values of the 16-bit and 32-bit floats stored in blocks. */
  datatype Floats = Floats(f16: nat -> real, f32: nat -> real) {
    function Ar(): Arith<real> { Exact(f16, f32) }
  }

  /** Decoded weights times decoded activations, over the first `n` lanes of a row. */
  function RowDot(values: seq<real>, acts: seq<int>, d8: real, n: nat): real
    requires n <= |values| && n <= |acts|
  {
    if n == 0 then 0.0 else RowDot(values, acts, d8, n - 1) + values[n - 1] * (d8 * (acts[n - 1] as real))
  }

  function SumReal(xs: seq<real>, n: nat): real
    requires n <= |xs|
  {
    if n == 0 then 0.0 else SumReal(xs, n - 1) + xs[n - 1]
  }

  // --- real arithmetic, one identity at a time -----------------------------------------------------

  lemma Linear(c: real, x: real, y: real)
    ensures c * x + c * y == c * (x + y)
  {}

  /** `c * n` for an integer `n`, unfolded one step at a time. */
  function Mul(c: real, n: int): real
    decreases if n < 0 then -n else n
  {
    if n == 0 then 0.0 else if n > 0 then Mul(c, n - 1) + c else Mul(c, n + 1) - c
  }

  lemma {:induction false} MulIsProduct(c: real, n: int)
    ensures Mul(c, n) == c * (n as real)
    decreases if n < 0 then -n else n
  {
    if n > 0 {
      MulIsProduct(c, n - 1);
      Linear(c, (n - 1) as real, 1.0);
    } else if n < 0 {
      MulIsProduct(c, n + 1);
      Linear(c, n as real, 1.0);
    }
  }

  lemma {:induction false} MulAdd(c: real, x: int, y: int)
    ensures Mul(c, x + y) == Mul(c, x) + Mul(c, y)
  {
    MulIsProduct(c, x);
    MulIsProduct(c, y);
    MulIsProduct(c, x + y);
    var u, v, w := x as real, y as real, (x + y) as real;
    assert w == u + v;
    Distributes(c, u, v, w);
  }

  lemma Distributes(c: real, u: real, v: real, w: real)
    requires w == u + v
    ensures c * w == c * u + c * v
  {}

  lemma {:induction false} MulZero(n: int)
    ensures Mul(0.0, n) == 0.0
  {
    MulIsProduct(0.0, n);
  }

  lemma Rearrange(d: real, s: real, q: real, d8: real, a: real)
    ensures (d * s * q) * (d8 * a) == (d * d8) * (s * (a * q))
  {
    var sq := s * q;
    assert d * s * q == d * sq;
    assert (d * sq) * (d8 * a) == (d * d8) * (sq * a);
    assert sq * a == s * (a * q);
  }

  lemma CastProduct(x: int, y: int)
    ensures (x * y) as real == (x as real) * (y as real)
  {}

  lemma AffineIdentity(d: real, m: real, d8: real, s: int, q: int, min: int, a: int)
    ensures (d * (s as real) * (q as real) - m * (min as real)) * (d8 * (a as real)) ==
            (d * d8) * ((s * (a * q)) as real) - (m * d8) * ((min * a) as real)
  {
    CastProduct(a, q);
    CastProduct(s, a * q);
    CastProduct(min, a);
    Rearrange(d, s as real, q as real, d8, a as real);
    assert (m * (min as real)) * (d8 * (a as real)) == (m * d8) * ((min as real) * (a as real));
  }

  // --- rows whose lanes split into a multiple of the products and one of the activations -------------

  ghost predicate LaneLaw(v: real, a: int, t: int, u: int, d8: real, c: real, e: real) {
    v * (d8 * (a as real)) == Mul(c, t) - Mul(e, u)
  }

  ghost predicate RowLaw(values: seq<real>, acts: seq<int>, terms: seq<int>, minima: seq<int>, d8: real, c: real,
                         e: real) {
    |values| == |acts| == |terms| == |minima| == 32 &&
    forall l | 0 <= l < 32 :: LaneLaw(values[l], acts[l], terms[l], minima[l], d8, c, e)
  }

  lemma {:induction false} RowDotLaw(values: seq<real>, acts: seq<int>, terms: seq<int>, minima: seq<int>, d8: real,
                                     c: real, e: real, n: nat)
    requires RowLaw(values, acts, terms, minima, d8, c, e) && n <= 32
    ensures RowDot(values, acts, d8, n) == Mul(c, Sum(terms, 0, n)) - Mul(e, Sum(minima, 0, n))
  {
    if n > 0 {
      RowDotLaw(values, acts, terms, minima, d8, c, e, n - 1);
      assert LaneLaw(values[n - 1], acts[n - 1], terms[n - 1], minima[n - 1], d8, c, e);
      MulAdd(c, Sum(terms, 0, n - 1), terms[n - 1]);
      MulAdd(e, Sum(minima, 0, n - 1), minima[n - 1]);
    }
  }

  ghost predicate RowsLaw(dots: seq<real>, ts: Vector, ms: Vector, c: real, e: real) {
    |dots| == |ts| == |ms| && forall g | 0 <= g < |dots| :: dots[g] == Mul(c, ts[g]) - Mul(e, ms[g])
  }

  lemma {:induction false} SumLaw(dots: seq<real>, ts: Vector, ms: Vector, c: real, e: real, n: nat)
    requires RowsLaw(dots, ts, ms, c, e) && n <= |dots|
    ensures SumReal(dots, n) == Mul(c, Sum(ts, 0, n)) - Mul(e, Sum(ms, 0, n))
  {
    if n > 0 {
      SumLaw(dots, ts, ms, c, e, n - 1);
      MulAdd(c, Sum(ts, 0, n - 1), ts[n - 1]);
      MulAdd(e, Sum(ms, 0, n - 1), ms[n - 1]);
    }
  }

  // --- Q4_K and Q5_K -----------------------------------------------------------------------------

  /** Stored sums are those of the activations they stand for. */
  ghost predicate SumsCorrect(a: Q8Parts)
    requires a.Valid()
  {
    forall g | 0 <= g < 8 :: a.sums[2 * g] == Sum(a.rows[g], 0, 16) && a.sums[2 * g + 1] == Sum(a.rows[g], 16, 16)
  }

  ghost function KRowDots(f: Floats, p: KParts, a: Q8Parts): (r: seq<real>)
    requires p.Valid() && a.Valid()
    ensures |r| == 8
  {
    seq(8, g requires 0 <= g < 8 => RowDot(KValues(f.Ar(), p, g), a.rows[g], f.f32(a.d), 32))
  }

  ghost function KBlockDot(f: Floats, p: KParts, a: Q8Parts): real
    requires p.Valid() && a.Valid()
  {
    SumReal(KRowDots(f, p, a), |p.scales|)
  }

  /** The reference: decode every lane of every block, multiply, add. */
  ghost function KDecodedDot(f: Floats, ps: seq<KParts>, qs: seq<Q8Parts>, blocks: nat): real
    requires KRowValid(ps, qs) && blocks <= |ps|
    decreases blocks
  {
    if blocks == 0 then 0.0 else KDecodedDot(f, ps, qs, blocks - 1) + KBlockDot(f, ps[blocks - 1], qs[blocks - 1])
  }

  lemma AffineLaw(v: real, d: real, m: real, d8: real, s: int, q: int, min: int, a: int, t: int, u: int, c: real,
                  e: real)
    requires v == d * (s as real) * (q as real) - m * (min as real) && t == s * (a * q) && u == min * a &&
             c == d * d8 && e == m * d8
    ensures LaneLaw(v, a, t, u, d8, c, e)
  {
    AffineIdentity(d, m, d8, s, q, min, a);
    MulIsProduct(d * d8, t);
    MulIsProduct(m * d8, u);
  }

  lemma ExactAffine(f: Floats, d: real, m: real, s: int, q: int, min: int)
    ensures f.Ar().sub(f.Ar().mul(f.Ar().mul(d, f.Ar().ofInt(s)), f.Ar().ofInt(q)), f.Ar().mul(m, f.Ar().ofInt(min))) ==
            d * (s as real) * (q as real) - m * (min as real)
  {}

  lemma KLaneLaw(f: Floats, p: KParts, a: Q8Parts, g: nat, l: nat, c: real, e: real)
    requires p.Valid() && a.Valid() && g < 8 && l < 32 && c == f.f16(p.d) * f.f32(a.d) &&
             e == f.f16(p.dmin) * f.f32(a.d)
    ensures LaneLaw(KValues(f.Ar(), p, g)[l], a.rows[g][l], KTerms(p, a, g)[l], Scale(p.mins[g], a.rows[g])[l],
                    f.f32(a.d), c, e)
  {
    ExactAffine(f, f.f16(p.d), f.f16(p.dmin), p.scales[g], p.rows[g][l], p.mins[g]);
    AffineLaw(KValues(f.Ar(), p, g)[l], f.f16(p.d), f.f16(p.dmin), f.f32(a.d), p.scales[g], p.rows[g][l], p.mins[g],
              a.rows[g][l], KTerms(p, a, g)[l], Scale(p.mins[g], a.rows[g])[l], c, e);
  }

  /** Per row: the sum of scaled products, and the minimum times the sum of activations. */
  function KTotals(p: KParts, a: Q8Parts): (r: Vector)
    requires p.Valid() && a.Valid()
    ensures |r| == 8
  {
    seq(8, g requires 0 <= g < 8 => Sum(KTerms(p, a, g), 0, 32))
  }

  function KMinTotals(p: KParts, a: Q8Parts): (r: Vector)
    requires p.Valid() && a.Valid()
    ensures |r| == 8
  {
    seq(8, g requires 0 <= g < 8 => p.mins[g] * Sum(a.rows[g], 0, 32))
  }

  /** A row: d * d8 times the scaled products, minus dmin * d8 times the scaled activations. */
  lemma KRowDot(f: Floats, p: KParts, a: Q8Parts, g: nat, c: real, e: real)
    requires p.Valid() && a.Valid() && g < 8 && c == f.f16(p.d) * f.f32(a.d) && e == f.f16(p.dmin) * f.f32(a.d)
    ensures KRowDots(f, p, a)[g] == Mul(c, KTotals(p, a)[g]) - Mul(e, KMinTotals(p, a)[g])
  {
    var values, acts, terms, minima := KValues(f.Ar(), p, g), a.rows[g], KTerms(p, a, g), Scale(p.mins[g], a.rows[g]);
    forall l | 0 <= l < 32 ensures LaneLaw(values[l], acts[l], terms[l], minima[l], f.f32(a.d), c, e) {
      KLaneLaw(f, p, a, g, l, c, e);
    }
    RowDotLaw(values, acts, terms, minima, f.f32(a.d), c, e, 32);
    SumOfScale(p.mins[g], acts, 0, 32);
  }

  /** What the eight accumulators hold together. */
  lemma {:induction false} LaneSumsTotal(p: KParts, a: Q8Parts, rows: nat)
    requires p.Valid() && a.Valid() && rows <= 8
    ensures Sum(KLaneSums(p, a, rows), 0, 8) == Sum(KTotals(p, a), 0, rows)
  {
    if rows == 0 {
      ZeroSum();
    } else {
      LaneSumsTotal(p, a, rows - 1);
      var terms := KTerms(p, a, rows - 1);
      SumOfAdd(KLaneSums(p, a, rows - 1), Lanes(terms, 4), 8);
      SumOfLanes(terms, 4);
    }
  }

  lemma {:induction false} MinimumTotal(p: KParts, a: Q8Parts, rows: nat)
    requires p.Valid() && a.Valid() && rows <= 8 && SumsCorrect(a)
    ensures KMinimumSum(p, a, 2 * rows) == Sum(KMinTotals(p, a), 0, rows)
  {
    if rows > 0 {
      var g := rows - 1;
      MinimumTotal(p, a, g);
      SumSplit(a.rows[g], 0, 16, 16);
      Distribute(p.mins[g], Sum(a.rows[g], 0, 16), Sum(a.rows[g], 16, 16));
      TwoGroups(p, a, g);
    }
  }

  lemma TwoGroups(p: KParts, a: Q8Parts, g: nat)
    requires p.Valid() && a.Valid() && g < 8
    ensures KMinimumSum(p, a, 2 * g + 2) ==
            KMinimumSum(p, a, 2 * g) + p.mins[g] * a.sums[2 * g] + p.mins[g] * a.sums[2 * g + 1]
  {
    assert (2 * g) / 2 == g && (2 * g + 1) / 2 == g;
    assert KMinimumSum(p, a, 2 * g + 1) == KMinimumSum(p, a, 2 * g) + a.sums[2 * g] * p.mins[g];
  }

  /** Adding the eight accumulators at the end distributes over the steps. */
  lemma {:induction false} FoldShift(f: Floats, start: real, sums: seq<real>, start': real, sums': seq<real>,
                                     lanes: Vector, c: real, delta: real, n: nat)
    requires |sums| == |sums'| == |lanes| && n <= |sums| && start' == start - delta
    requires forall l | 0 <= l < |sums| :: sums'[l] == sums[l] + Mul(c, lanes[l])
    ensures FoldAdd(f.Ar(), start', sums', n) == FoldAdd(f.Ar(), start, sums, n) + Mul(c, Sum(lanes, 0, n)) - delta
  {
    if n > 0 {
      FoldShift(f, start, sums, start', sums', lanes, c, delta, n - 1);
      MulAdd(c, Sum(lanes, 0, n - 1), lanes[n - 1]);
    }
  }

  lemma KStepIs(f: Floats, acc: KAcc<real>, p: KParts, a: Q8Parts, lanes: Vector, minimum: int, c: real, e: real)
    requires |acc.sums| == 8 && |lanes| == 8 && c == f.f16(p.d) * f.f32(a.d) && e == f.f16(p.dmin) * f.f32(a.d)
    ensures var next := KStep(f.Ar(), acc, p, a, lanes, minimum);
            next.sum == acc.sum - Mul(e, minimum) &&
            forall l | 0 <= l < 8 :: next.sums[l] == acc.sums[l] + Mul(c, lanes[l])
  {
    MulIsProduct(e, minimum);
    forall l | 0 <= l < 8 ensures KStep(f.Ar(), acc, p, a, lanes, minimum).sums[l] == acc.sums[l] + Mul(c, lanes[l]) {
      MulIsProduct(c, lanes[l]);
    }
  }

  lemma {:induction false} FoldOfZeros(f: Floats, n: nat)
    requires n <= 8
    ensures FoldAdd(f.Ar(), 0.0, KStart(f.Ar()).sums, n) == 0.0
  {
    if n > 0 {
      FoldOfZeros(f, n - 1);
    }
  }

  /** The two coefficients of a block, d * d8 and dmin * d8, and what they govern. */
  lemma Coefficients(f: Floats, acc: KAcc<real>, p: KParts, a: Q8Parts, lanes: Vector, minimum: int)
    returns (c: real, e: real)
    requires p.Valid() && a.Valid() && |acc.sums| == 8 && |lanes| == 8
    ensures RowsLaw(KRowDots(f, p, a), KTotals(p, a), KMinTotals(p, a), c, e)
    ensures var next := KStep(f.Ar(), acc, p, a, lanes, minimum);
            FoldAdd(f.Ar(), next.sum, next.sums, 8) ==
              FoldAdd(f.Ar(), acc.sum, acc.sums, 8) + Mul(c, Sum(lanes, 0, 8)) - Mul(e, minimum)
  {
    c, e := f.f16(p.d) * f.f32(a.d), f.f16(p.dmin) * f.f32(a.d);
    KRowsLaw(f, p, a, c, e);
    KStepIs(f, acc, p, a, lanes, minimum, c, e);
    var next := KStep(f.Ar(), acc, p, a, lanes, minimum);
    FoldShift(f, acc.sum, acc.sums, next.sum, next.sums, lanes, c, Mul(e, minimum), 8);
  }

  lemma KRowsLaw(f: Floats, p: KParts, a: Q8Parts, c: real, e: real)
    requires p.Valid() && a.Valid() && c == f.f16(p.d) * f.f32(a.d) && e == f.f16(p.dmin) * f.f32(a.d)
    ensures RowsLaw(KRowDots(f, p, a), KTotals(p, a), KMinTotals(p, a), c, e)
  {
    forall g: nat | g < 8 ensures KRowDots(f, p, a)[g] == Mul(c, KTotals(p, a)[g]) - Mul(e, KMinTotals(p, a)[g]) {
      KRowDot(f, p, a, g, c, e);
    }
  }

  /** One block: the step adds exactly the decoded dot product of the block. */
  lemma KBlockMeaning(f: Floats, p: KParts, a: Q8Parts, acc: KAcc<real>)
    requires p.Valid() && a.Valid() && SumsCorrect(a) && |acc.sums| == 8
    ensures var next := KStep(f.Ar(), acc, p, a, KLaneSums(p, a, |p.scales|), KMinimumSum(p, a, |a.sums|));
            FoldAdd(f.Ar(), next.sum, next.sums, |next.sums|) ==
              FoldAdd(f.Ar(), acc.sum, acc.sums, |acc.sums|) + KBlockDot(f, p, a)
  {
    var lanes, minimum := KLaneSums(p, a, |p.scales|), KMinimumSum(p, a, |a.sums|);
    var c, e := Coefficients(f, acc, p, a, lanes, minimum);
    SumLaw(KRowDots(f, p, a), KTotals(p, a), KMinTotals(p, a), c, e, |p.scales|);
    LaneSumsTotal(p, a, |p.scales|);
    MinimumTotal(p, a, |p.scales|);
  }

  lemma {:induction false} KRunMeaning(f: Floats, ps: seq<KParts>, qs: seq<Q8Parts>, blocks: nat)
    requires KRowValid(ps, qs) && blocks <= |ps| && forall b | 0 <= b < |qs| :: SumsCorrect(qs[b])
    ensures KTotal(f, KRun(f.Ar(), ps, qs, blocks)) == KDecodedDot(f, ps, qs, blocks)
    decreases blocks
  {
    if blocks == 0 {
      KStartMeaning(f);
    } else {
      KRunMeaning(f, ps, qs, blocks - 1);
      KRunNext(f, ps, qs, blocks);
    }
  }

  lemma KRunNext(f: Floats, ps: seq<KParts>, qs: seq<Q8Parts>, blocks: nat)
    requires KRowValid(ps, qs) && 0 < blocks <= |ps| && SumsCorrect(qs[blocks - 1])
    ensures KTotal(f, KRun(f.Ar(), ps, qs, blocks)) ==
            KTotal(f, KRun(f.Ar(), ps, qs, blocks - 1)) + KBlockDot(f, ps[blocks - 1], qs[blocks - 1])
  {
    KNextMeaning(f, ps[blocks - 1], qs[blocks - 1], KRun(f.Ar(), ps, qs, blocks - 1), KRun(f.Ar(), ps, qs, blocks));
  }

  lemma KNextMeaning(f: Floats, p: KParts, a: Q8Parts, acc: KAcc<real>, next: KAcc<real>)
    requires p.Valid() && a.Valid() && SumsCorrect(a) && |acc.sums| == |next.sums| == 8
    requires next == KStep(f.Ar(), acc, p, a, KLaneSums(p, a, |p.scales|), KMinimumSum(p, a, |a.sums|))
    ensures KTotal(f, next) == KTotal(f, acc) + KBlockDot(f, p, a)
  {
    KBlockMeaning(f, p, a, acc);
  }

  lemma KStartMeaning(f: Floats)
    ensures KTotal(f, KStart(f.Ar())) == 0.0
  {
    FoldOfZeros(f, 8);
  }

  /** What the accumulators amount to. */
  ghost function KTotal(f: Floats, acc: KAcc<real>): real {
    FoldAdd(f.Ar(), acc.sum, acc.sums, |acc.sums|)
  }

  /** Q4_K and Q5_K dot products preserve meaning. */
  lemma KDotMeaning(f: Floats, ty: KType, weights: seq<byte>, q8: seq<byte>, n: nat)
    requires |weights| == n * ty.Bytes() && |q8| == n * Q8_BYTES
    requires forall b | 0 <= b < n :: SumsCorrect(Q8Fields(q8, n)[b])
    ensures KDot(f.Ar(), KFields(ty, weights, n), Q8Fields(q8, n)) ==
            KDecodedDot(f, KFields(ty, weights, n), Q8Fields(q8, n), n)
  {
    KRunMeaning(f, KFields(ty, weights, n), Q8Fields(q8, n), n);
  }

  // --- IQ2_S and IQ3_S ----------------------------------------------------------------------------

  ghost function IqRowDots(f: Floats, two: bool, p: IqParts, a: Q8Parts): (r: seq<real>)
    requires p.Valid(Largest(two)) && a.Valid()
    ensures |r| == 8
  {
    seq(8, g requires 0 <= g < 8 => RowDot(IqValues(f.Ar(), two, p, Largest(two), g), a.rows[g], f.f32(a.d), 32))
  }

  ghost function IqBlockDot(f: Floats, two: bool, p: IqParts, a: Q8Parts): real
    requires p.Valid(Largest(two)) && a.Valid()
  {
    SumReal(IqRowDots(f, two, p, a), |p.nibbles|)
  }

  ghost function IqDecodedDot(f: Floats, two: bool, ps: seq<IqParts>, qs: seq<Q8Parts>, blocks: nat): real
    requires IqRowValid(ps, Largest(two), qs) && blocks <= |ps|
    decreases blocks
  {
    if blocks == 0 then 0.0
    else IqDecodedDot(f, two, ps, qs, blocks - 1) + IqBlockDot(f, two, ps[blocks - 1], qs[blocks - 1])
  }

  /** IQ2_S takes its factor 1/8 out of the sum. */
  function Factor(two: bool): real { if two then 0.125 else 1.0 }

  lemma ScaleMeaning(f: Floats, two: bool, d: nat, nibble: int)
    ensures IqScale(f.Ar(), two, d, nibble) == Factor(two) * f.f16(d) * ((1 + 2 * nibble) as real)
  {
    EighthOf(f.f16(d), nibble as real);
  }

  lemma EighthOf(d: real, s: real)
    ensures d * (0.5 + s) * 0.25 == 0.125 * d * (1.0 + 2.0 * s)
  {
    assert d * (0.5 + s) == 0.5 * d + d * s;
    assert 0.125 * d * (1.0 + 2.0 * s) == 0.125 * d + 0.25 * (d * s);
  }

  lemma SignedIdentity(k: real, d: real, d8: real, s: int, mag: int, sign: int, a: int)
    ensures (k * d * (s as real) * (mag as real) * (sign as real)) * (d8 * (a as real)) ==
            (k * d * d8) * ((s * (a * (mag * sign))) as real)
  {
    var v := mag * sign;
    CastProduct(mag, sign);
    CastProduct(a, v);
    CastProduct(s, a * v);
    assert k * d * (s as real) * (mag as real) * (sign as real) == (k * d) * (s as real) * (v as real) by {
      Regroup((k * d) * (s as real), mag as real, sign as real);
    }
    Rearrange(k * d, s as real, v as real, d8, a as real);
  }

  lemma Regroup(x: real, y: real, z: real)
    ensures x * y * z == x * (y * z)
  {}

  function HalfScale(p: IqParts, largest: nat, g: nat, l: nat): int
    requires p.Valid(largest) && g < 8 && l < 32
  {
    1 + 2 * if l < 16 then p.nibbles[g][0] else p.nibbles[g][1]
  }

  /** Every term times the scale of its half row. */
  function ScaledTerms(p: IqParts, largest: nat, a: Q8Parts, g: nat): (r: Row<int>)
    requires p.Valid(largest) && a.Valid() && g < 8
    ensures |r| == 32 && forall l | 0 <= l < 32 :: r[l] == HalfScale(p, largest, g, l) * IqTerms(p, largest, a, g)[l]
  {
    seq(32, l requires 0 <= l < 32 => HalfScale(p, largest, g, l) * IqTerms(p, largest, a, g)[l])
  }

  lemma ExactProduct(f: Floats, scale: real, mag: int, sign: int)
    ensures f.Ar().mul(f.Ar().mul(scale, f.Ar().ofInt(mag)), f.Ar().ofInt(sign)) ==
            scale * (mag as real) * (sign as real)
  {}

  /** `v` is lane `l` of a decoded row whose half has the float scale `scale`. */
  ghost predicate DecodedLane(v: real, p: IqParts, largest: nat, g: nat, l: nat, scale: real)
    requires p.Valid(largest) && g < 8 && l < 32
  {
    v == scale * (p.mags[g][l] as real) * (p.signs[g][l] as real)
  }

  /** The decoded lanes of a row, with the float scales of its two halves. */
  ghost predicate Decoded(values: seq<real>, p: IqParts, largest: nat, g: nat, scale0: real, scale1: real)
    requires p.Valid(largest) && g < 8
  {
    |values| == 32 &&
    forall l | 0 <= l < 32 :: DecodedLane(values[l], p, largest, g, l, if l < 16 then scale0 else scale1)
  }

  lemma IqValuesDecoded(f: Floats, two: bool, p: IqParts, g: nat) returns (scale0: real, scale1: real)
    requires p.Valid(Largest(two)) && g < 8
    ensures Decoded(IqValues(f.Ar(), two, p, Largest(two), g), p, Largest(two), g, scale0, scale1)
    ensures scale0 == Factor(two) * f.f16(p.d) * ((1 + 2 * p.nibbles[g][0]) as real)
    ensures scale1 == Factor(two) * f.f16(p.d) * ((1 + 2 * p.nibbles[g][1]) as real)
  {
    scale0, scale1 := IqScale(f.Ar(), two, p.d, p.nibbles[g][0]), IqScale(f.Ar(), two, p.d, p.nibbles[g][1]);
    ScaleMeaning(f, two, p.d, p.nibbles[g][0]);
    ScaleMeaning(f, two, p.d, p.nibbles[g][1]);
    DecodedIs(f, two, p, g, scale0, scale1);
  }

  lemma DecodedIs(f: Floats, two: bool, p: IqParts, g: nat, scale0: real, scale1: real)
    requires p.Valid(Largest(two)) && g < 8
    requires scale0 == IqScale(f.Ar(), two, p.d, p.nibbles[g][0]) &&
             scale1 == IqScale(f.Ar(), two, p.d, p.nibbles[g][1])
    ensures Decoded(IqValues(f.Ar(), two, p, Largest(two), g), p, Largest(two), g, scale0, scale1)
  {
    var values := IqValues(f.Ar(), two, p, Largest(two), g);
    forall l | 0 <= l < 32
      ensures DecodedLane(values[l], p, Largest(two), g, l, if l < 16 then scale0 else scale1)
    {
      IqLane(f, two, p, g, l, if l < 16 then scale0 else scale1);
    }
  }

  lemma IqLane(f: Floats, two: bool, p: IqParts, g: nat, l: nat, scale: real)
    requires p.Valid(Largest(two)) && g < 8 && l < 32
    requires scale == IqScale(f.Ar(), two, p.d, if l < 16 then p.nibbles[g][0] else p.nibbles[g][1])
    ensures DecodedLane(IqValue(f.Ar(), two, p, Largest(two), g, l), p, Largest(two), g, l, scale)
  {
    ExactProduct(f, scale, p.mags[g][l], p.signs[g][l]);
  }

  lemma SignedLaw(v: real, scale: real, k: real, d: real, d8: real, s: int, mag: int, sign: int, a: int, t: int,
                  c: real)
    requires v == scale * (mag as real) * (sign as real) && scale == k * d * (s as real) &&
             t == s * (a * (mag * sign)) && c == k * d * d8
    ensures LaneLaw(v, a, t, 0, d8, c, 0.0)
  {
    SignedIdentity(k, d, d8, s, mag, sign, a);
    MulIsProduct(k * d * d8, t);
    MulZero(0);
  }

  lemma {:induction false} SumOfMultiple(ys: Vector, xs: Vector, s: int, from: nat, n: nat)
    requires |ys| == |xs| && from + n <= |xs| && forall i | from <= i < from + n :: ys[i] == s * xs[i]
    ensures Sum(ys, from, n) == s * Sum(xs, from, n)
  {
    if n > 0 {
      SumOfMultiple(ys, xs, s, from, n - 1);
      Distribute(s, Sum(xs, from, n - 1), xs[from + n - 1]);
    }
  }

  /** Two halves with a scale each. */
  lemma TwoHalves(ys: Vector, xs: Vector, s0: int, s1: int)
    requires |ys| == |xs| == 32
    requires (forall i | 0 <= i < 16 :: ys[i] == s0 * xs[i]) && forall i | 16 <= i < 32 :: ys[i] == s1 * xs[i]
    ensures Sum(ys, 0, 32) == s0 * Sum(xs, 0, 16) + s1 * Sum(xs, 16, 16)
    ensures s0 == s1 ==> Sum(ys, 0, 32) == Sum(xs, 0, 32) * s0
  {
    SumOfMultiple(ys, xs, s0, 0, 16);
    SumOfMultiple(ys, xs, s1, 16, 16);
    SumSplit(ys, 0, 16, 16);
    SumSplit(xs, 0, 16, 16);
    Distribute(s0, Sum(xs, 0, 16), Sum(xs, 16, 16));
  }

  /** Scaling half rows (or rows) or scaling every lane makes no difference. In IQ3_S both halves
      have the same scale. */
  lemma ScaledTermsSum(two: bool, p: IqParts, a: Q8Parts, g: nat)
    requires p.Valid(Largest(two)) && a.Valid() && g < 8 && (two || p.nibbles[g][0] == p.nibbles[g][1])
    ensures Sum(ScaledTerms(p, Largest(two), a, g), 0, 32) == IqRowSum(two, p, Largest(two), a, g)
  {
    TwoHalves(ScaledTerms(p, Largest(two), a, g), IqTerms(p, Largest(two), a, g), 1 + 2 * p.nibbles[g][0],
              1 + 2 * p.nibbles[g][1]);
  }

  ghost predicate OneScale(two: bool, p: IqParts) {
    p.Valid(Largest(two)) && (two || forall g | 0 <= g < 8 :: p.nibbles[g][0] == p.nibbles[g][1])
  }

  function IqTotals(two: bool, p: IqParts, a: Q8Parts): (r: Vector)
    requires p.Valid(Largest(two)) && a.Valid()
    ensures |r| == 8
  {
    seq(8, g requires 0 <= g < 8 => IqRowSum(two, p, Largest(two), a, g))
  }

  lemma IqRowDot(f: Floats, two: bool, p: IqParts, a: Q8Parts, g: nat, c: real)
    requires OneScale(two, p) && a.Valid() && g < 8 && c == Factor(two) * f.f16(p.d) * f.f32(a.d)
    ensures IqRowDots(f, two, p, a)[g] == Mul(c, IqTotals(two, p, a)[g])
  {
    ScaledTermsSum(two, p, a, g);
    ScaledRowDot(f, two, p, a, g, c);
  }

  lemma ScaledRowDot(f: Floats, two: bool, p: IqParts, a: Q8Parts, g: nat, c: real)
    requires p.Valid(Largest(two)) && a.Valid() && g < 8 && c == Factor(two) * f.f16(p.d) * f.f32(a.d)
    ensures RowDot(IqValues(f.Ar(), two, p, Largest(two), g), a.rows[g], f.f32(a.d), 32) ==
            Mul(c, Sum(ScaledTerms(p, Largest(two), a, g), 0, 32))
  {
    var scale0, scale1 := IqValuesDecoded(f, two, p, g);
    DecodedRowDot(IqValues(f.Ar(), two, p, Largest(two), g), p, Largest(two), a, g, scale0, scale1, Factor(two),
                  f.f16(p.d), f.f32(a.d), c);
  }

  lemma DecodedRowDot(values: seq<real>, p: IqParts, largest: nat, a: Q8Parts, g: nat, scale0: real, scale1: real,
                      k: real, d: real, d8: real, c: real)
    requires p.Valid(largest) && a.Valid() && g < 8 && Decoded(values, p, largest, g, scale0, scale1) && c == k * d * d8
    requires scale0 == k * d * ((1 + 2 * p.nibbles[g][0]) as real) &&
             scale1 == k * d * ((1 + 2 * p.nibbles[g][1]) as real)
    ensures RowDot(values, a.rows[g], d8, 32) == Mul(c, Sum(ScaledTerms(p, largest, a, g), 0, 32))
  {
    forall l | 0 <= l < 32 ensures LaneLaw(values[l], a.rows[g][l], ScaledTerms(p, largest, a, g)[l], 0, d8, c, 0.0) {
      DecodedLaneLaw(values[l], p, largest, a, g, l, if l < 16 then scale0 else scale1, k, d, d8, c);
    }
    ZeroMinima(values, a.rows[g], ScaledTerms(p, largest, a, g), d8, c);
  }

  lemma DecodedLaneLaw(v: real, p: IqParts, largest: nat, a: Q8Parts, g: nat, l: nat, scale: real, k: real, d: real,
                       d8: real, c: real)
    requires p.Valid(largest) && a.Valid() && g < 8 && l < 32 && DecodedLane(v, p, largest, g, l, scale)
    requires scale == k * d * (HalfScale(p, largest, g, l) as real) && c == k * d * d8
    ensures LaneLaw(v, a.rows[g][l], ScaledTerms(p, largest, a, g)[l], 0, d8, c, 0.0)
  {
    SignedLaw(v, scale, k, d, d8, HalfScale(p, largest, g, l), p.mags[g][l], p.signs[g][l], a.rows[g][l],
              ScaledTerms(p, largest, a, g)[l], c);
  }

  lemma ZeroMinima(values: seq<real>, acts: seq<int>, terms: seq<int>, d8: real, c: real)
    requires |values| == |acts| == |terms| == 32 &&
             forall l | 0 <= l < 32 :: LaneLaw(values[l], acts[l], terms[l], 0, d8, c, 0.0)
    ensures RowDot(values, acts, d8, 32) == Mul(c, Sum(terms, 0, 32))
  {
    var zeros := seq(32, _ => 0);
    RowDotLaw(values, acts, terms, zeros, d8, c, 0.0, 32);
    MulZero(Sum(zeros, 0, 32));
  }

  lemma {:induction false} TotalsSum(two: bool, p: IqParts, a: Q8Parts, rows: nat)
    requires p.Valid(Largest(two)) && a.Valid() && rows <= 8
    ensures IqBlockSum(two, p, Largest(two), a, rows) == Sum(IqTotals(two, p, a), 0, rows)
  {
    if rows > 0 {
      TotalsSum(two, p, a, rows - 1);
    }
  }

  lemma IqRowsLaw(f: Floats, two: bool, p: IqParts, a: Q8Parts, c: real, zeros: Vector)
    requires OneScale(two, p) && a.Valid() && c == Factor(two) * f.f16(p.d) * f.f32(a.d) && |zeros| == 8
    ensures RowsLaw(IqRowDots(f, two, p, a), IqTotals(two, p, a), zeros, c, 0.0)
  {
    forall g: nat | g < 8 ensures IqRowDots(f, two, p, a)[g] == Mul(c, IqTotals(two, p, a)[g]) - Mul(0.0, zeros[g]) {
      IqRowDot(f, two, p, a, g, c);
      MulZero(zeros[g]);
    }
  }

  lemma IqBlockMeaning(f: Floats, two: bool, p: IqParts, a: Q8Parts, c: real)
    requires OneScale(two, p) && a.Valid() && c == Factor(two) * f.f16(p.d) * f.f32(a.d)
    ensures IqBlockDot(f, two, p, a) == Mul(c, IqBlockSum(two, p, Largest(two), a, |p.nibbles|))
  {
    var zeros := seq(8, _ => 0);
    IqRowsLaw(f, two, p, a, c, zeros);
    SumLaw(IqRowDots(f, two, p, a), IqTotals(two, p, a), zeros, c, 0.0, |p.nibbles|);
    MulZero(Sum(zeros, 0, |p.nibbles|));
    TotalsSum(two, p, a, |p.nibbles|);
  }

  lemma {:induction false} IqRunMeaning(f: Floats, two: bool, ps: seq<IqParts>, qs: seq<Q8Parts>, blocks: nat)
    requires IqRowValid(ps, Largest(two), qs) && blocks <= |ps| && forall b | 0 <= b < |ps| :: OneScale(two, ps[b])
    ensures Factor(two) * IqRun(f.Ar(), two, ps, Largest(two), qs, blocks) == IqDecodedDot(f, two, ps, qs, blocks)
    decreases blocks
  {
    if blocks > 0 {
      IqRunMeaning(f, two, ps, qs, blocks - 1);
      IqStepMeaning(f, two, IqRun(f.Ar(), two, ps, Largest(two), qs, blocks - 1), ps[blocks - 1], qs[blocks - 1],
                    IqRun(f.Ar(), two, ps, Largest(two), qs, blocks));
    }
  }

  lemma IqStepMeaning(f: Floats, two: bool, before: real, p: IqParts, a: Q8Parts, next: real)
    requires OneScale(two, p) && a.Valid() &&
             next == IqStep(f.Ar(), before, p, a, IqBlockSum(two, p, Largest(two), a, |p.nibbles|))
    ensures Factor(two) * next == Factor(two) * before + IqBlockDot(f, two, p, a)
  {
    var c := Factor(two) * f.f16(p.d) * f.f32(a.d);
    IqBlockMeaning(f, two, p, a, c);
    ExactStep(f, two, before, p, a, IqBlockSum(two, p, Largest(two), a, |p.nibbles|), next, c);
  }

  lemma ExactStep(f: Floats, two: bool, before: real, p: IqParts, a: Q8Parts, x: int, next: real, c: real)
    requires next == IqStep(f.Ar(), before, p, a, x) && c == Factor(two) * f.f16(p.d) * f.f32(a.d)
    ensures Factor(two) * next == Factor(two) * before + Mul(c, x)
  {
    FactorStep(Factor(two), before, f.f16(p.d), f.f32(a.d), x, next, c);
  }

  lemma FactorStep(k: real, before: real, d: real, d8: real, x: int, next: real, c: real)
    requires next == before + d * d8 * (x as real) && c == k * d * d8
    ensures k * next == k * before + Mul(c, x)
  {
    MulIsProduct(k * d * d8, x);
    Linear(k, before, d * d8 * (x as real));
    Regroup(k, d, d8);
    Regroup(k, d * d8, x as real);
  }

  /** IQ2_S and IQ3_S dot products preserve meaning. */
  lemma IqDotMeaning(f: Floats, iq: Iq, weights: seq<byte>, q8: seq<byte>, n: nat)
    requires iq.Valid() && |weights| == n * iq.Bytes() && |q8| == n * Q8_BYTES
    ensures IqDot(f.Ar(), iq.Iq2?, IqFields(iq, weights, n), iq.Largest(), Q8Fields(q8, n)) ==
            IqDecodedDot(f, iq.Iq2?, IqFields(iq, weights, n), Q8Fields(q8, n), n)
  {
    var ps := IqFields(iq, weights, n);
    forall b | 0 <= b < n ensures OneScale(iq.Iq2?, ps[b]) {
      FieldsOneScale(iq, Block(weights, iq.Bytes(), n, b));
    }
    IqRunMeaning(f, iq.Iq2?, ps, Q8Fields(q8, n), n);
  }

  lemma FieldsOneScale(iq: Iq, w: seq<byte>)
    requires iq.Valid() && |w| == iq.Bytes()
    ensures OneScale(iq.Iq2?, IqPartsOf(iq, w))
  {}
}
