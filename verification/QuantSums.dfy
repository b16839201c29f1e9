/** Sums of integer lanes in the orders the dot products take them. */
module QuantSums {
  type Vector = seq<int>

  /** xs[from] + ... + xs[from + n - 1] */
  function Sum(xs: Vector, from: nat, n: nat): int
    requires from + n <= |xs|
  {
    if n == 0 then 0 else Sum(xs, from, n - 1) + xs[from + n - 1]
  }

  lemma {:induction false} SumSplit(xs: Vector, from: nat, m: nat, n: nat)
    requires from + m + n <= |xs|
    ensures Sum(xs, from, m + n) == Sum(xs, from, m) + Sum(xs, from + m, n)
  {
    if n > 0 {
      SumSplit(xs, from, m, n - 1);
    }
  }

  ghost predicate Within(xs: Vector, bound: nat) {
    forall i | 0 <= i < |xs| :: 0 - bound <= xs[i] <= bound
  }

  lemma {:induction false} SumWithin(xs: Vector, from: nat, n: nat, bound: nat)
    requires from + n <= |xs| && Within(xs, bound)
    ensures 0 - n * bound <= Sum(xs, from, n) <= n * bound
  {
    if n > 0 {
      SumWithin(xs, from, n - 1, bound);
      assert n * bound == (n - 1) * bound + bound;
    }
  }

  function Add(u: Vector, v: Vector): (r: Vector)
    requires |u| == |v|
    ensures |r| == |u| && forall l | 0 <= l < |r| :: r[l] == u[l] + v[l]
  {
    seq(|u|, l requires 0 <= l < |u| => u[l] + v[l])
  }

  function Scale(s: int, v: Vector): (r: Vector)
    ensures |r| == |v| && forall l | 0 <= l < |r| :: r[l] == s * v[l]
  {
    seq(|v|, l requires 0 <= l < |v| => s * v[l])
  }

  function Times(u: Vector, v: Vector): (r: Vector)
    requires |u| == |v|
    ensures |r| == |u| && forall l | 0 <= l < |r| :: r[l] == u[l] * v[l]
  {
    seq(|u|, l requires 0 <= l < |u| => u[l] * v[l])
  }

  lemma {:induction false} SumOfAdd(u: Vector, v: Vector, n: nat)
    requires |u| == |v| && n <= |u|
    ensures Sum(Add(u, v), 0, n) == Sum(u, 0, n) + Sum(v, 0, n)
  {
    if n > 0 {
      SumOfAdd(u, v, n - 1);
    }
  }

  lemma {:induction false} SumOfScale(s: int, v: Vector, from: nat, n: nat)
    requires from + n <= |v|
    ensures Sum(Scale(s, v), from, n) == s * Sum(v, from, n)
  {
    if n > 0 {
      SumOfScale(s, v, from, n - 1);
      Distribute(s, Sum(v, from, n - 1), v[from + n - 1]);
    }
  }

  lemma Distribute(s: int, x: int, y: int)
    ensures s * (x + y) == s * x + s * y
  {}

  lemma {:induction false} SumOfSlice(xs: Vector, at: nat, n: nat, m: nat)
    requires at + m <= |xs| && n <= m
    ensures Sum(xs[at..at + m], 0, n) == Sum(xs, at, n)
  {
    if n > 0 {
      SumOfSlice(xs, at, n - 1, m);
    }
  }

  // --- eight accumulators side by side ---------------------------------------------------------

  const ZEROS: Vector := [0, 0, 0, 0, 0, 0, 0, 0]

  function Chunk(xs: Vector, k: nat): (r: Vector)
    requires 8 * k + 8 <= |xs|
    ensures |r| == 8
  {
    xs[8 * k..8 * k + 8]
  }

  /** Accumulator `l` sums the terms l, 8 + l, 16 + l, ... of the first `chunks` chunks of eight. */
  function Lanes(xs: Vector, chunks: nat): (r: Vector)
    requires 8 * chunks <= |xs|
    ensures |r| == 8
  {
    if chunks == 0 then ZEROS else Add(Lanes(xs, chunks - 1), Chunk(xs, chunks - 1))
  }

  lemma ZeroSum()
    ensures Sum(ZEROS, 0, 8) == 0
  {
    SumWithin(ZEROS, 0, 8, 0);
  }

  /** Taking the terms accumulator by accumulator does not change their sum. */
  lemma {:induction false} SumOfLanes(xs: Vector, chunks: nat)
    requires 8 * chunks <= |xs|
    ensures Sum(Lanes(xs, chunks), 0, 8) == Sum(xs, 0, 8 * chunks)
  {
    if chunks == 0 {
      ZeroSum();
    } else {
      var k := chunks - 1;
      SumOfLanes(xs, k);
      SumOfAdd(Lanes(xs, k), Chunk(xs, k), 8);
      ChunkSum(xs, k);
    }
  }

  lemma ChunkSum(xs: Vector, k: nat)
    requires 8 * k + 8 <= |xs|
    ensures Sum(xs, 0, 8 * (k + 1)) == Sum(xs, 0, 8 * k) + Sum(Chunk(xs, k), 0, 8)
  {
    SumOfSlice(xs, 8 * k, 8, 8);
    SumSplit(xs, 0, 8 * k, 8);
  }

  lemma {:induction false} LanesWithin(xs: Vector, chunks: nat, bound: nat)
    requires 8 * chunks <= |xs| && Within(xs, bound)
    ensures Within(Lanes(xs, chunks), chunks * bound)
  {
    if chunks > 0 {
      LanesWithin(xs, chunks - 1, bound);
      assert chunks * bound == (chunks - 1) * bound + bound;
    }
  }

  lemma {:induction false} LanesOfScale(s: int, xs: Vector, chunks: nat)
    requires 8 * chunks <= |xs|
    ensures Lanes(Scale(s, xs), chunks) == Scale(s, Lanes(xs, chunks))
  {
    if chunks == 0 {
      ScaleOfZeros(s);
    } else {
      LanesOfScale(s, xs, chunks - 1);
      ScaleOfAdd(s, Lanes(xs, chunks - 1), Chunk(xs, chunks - 1));
      ChunkOfScale(s, xs, chunks - 1);
    }
  }

  lemma ScaleOfZeros(s: int)
    ensures Scale(s, ZEROS) == ZEROS
  {}

  lemma ChunkOfScale(s: int, xs: Vector, k: nat)
    requires 8 * k + 8 <= |xs|
    ensures Chunk(Scale(s, xs), k) == Scale(s, Chunk(xs, k))
  {
    var left, right := Chunk(Scale(s, xs), k), Scale(s, Chunk(xs, k));
    forall l | 0 <= l < 8 ensures left[l] == right[l] {
      assert left[l] == Scale(s, xs)[8 * k + l] && Chunk(xs, k)[l] == xs[8 * k + l];
    }
  }

  lemma ScaleOfAdd(s: int, u: Vector, v: Vector)
    requires |u| == |v|
    ensures Scale(s, Add(u, v)) == Add(Scale(s, u), Scale(s, v))
  {
    forall l | 0 <= l < |u| ensures Scale(s, Add(u, v))[l] == Add(Scale(s, u), Scale(s, v))[l] {
      Distribute(s, u[l], v[l]);
    }
  }

  lemma AddAssociates(u: Vector, v: Vector, w: Vector)
    requires |u| == |v| == |w|
    ensures Add(Add(u, v), w) == Add(u, Add(v, w))
  {}
}
