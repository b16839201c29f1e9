/** What attention computes, over real numbers: the textbook formula. The softmax of the scaled dot
    products of a query with the keys it may see weighs the values. Subtracting the maximum score
    first, as the kernel does for the sake of range, does not change it. */
module AttentionMeaning {
  import opened Common
  import opened KvLayout
  import opened PagedKv
  import opened Attention

  /** Real arithmetic. `exp` is any exponential function, `load` any reading of the stored bits. */
  datatype Exact = Exact(exp: real -> real, scale: nat -> real, load: F32 -> real, lowest: real) {
    function Ar(): Float<real> {
      Float(0.0, lowest, load, (x: real) => true, (x: real, y: real) => x * y, (x: real, y: real) => x + y,
            (x: real, y: real) => x - y, (x: real, y: real) => if y == 0.0 then 0.0 else x / y,
            (x: real, y: real) => if x < y then y else x, exp, scale)
    }

    /** The laws of an exponential function. */
    ghost predicate Lawful() {
      (forall x :: PositiveAt(x)) && forall x, y :: MultipliesAt(x, y)
    }

    ghost predicate PositiveAt(x: real) {
      exp(x) > 0.0
    }

    ghost predicate MultipliesAt(x: real, y: real) {
      exp(x + y) == exp(x) * exp(y)
    }
  }

  function SumTo(xs: seq<real>, n: nat): real
    requires n <= |xs|
  {
    if n == 0 then 0.0 else SumTo(xs, n - 1) + xs[n - 1]
  }

  function Sum(xs: seq<real>): real { SumTo(xs, |xs|) }

  // --- the formula -----------------------------------------------------------------------------

  /** exp(s_t) for every score. */
  ghost function Exps(e: Exact, scores: seq<real>): (r: seq<real>)
    ensures |r| == |scores| && forall t | 0 <= t < |r| :: r[t] == e.exp(scores[t])
  {
    seq(|scores|, t requires 0 <= t < |scores| => e.exp(scores[t]))
  }

  /** The weights are the softmax of the scores. */
  ghost predicate Softmaxes(e: Exact, scores: seq<real>, shares: seq<real>) {
    |shares| == |scores| && Sum(Exps(e, scores)) > 0.0 &&
    forall t | 0 <= t < |scores| :: ShareIs(e, scores, shares[t], t)
  }

  ghost predicate ShareIs(e: Exact, scores: seq<real>, share: real, t: nat)
    requires t < |scores| && Sum(Exps(e, scores)) > 0.0
  {
    share == e.exp(scores[t]) / Sum(Exps(e, scores))
  }

  /** x_0 * y_0, x_1 * y_1, ... of two lists of stored values. */
  ghost function Products(e: Exact, xs: seq<F32>, ys: seq<F32>): (r: seq<real>)
    requires |xs| == |ys|
    ensures |r| == |xs| && forall i | 0 <= i < |r| :: r[i] == e.load(xs[i]) * e.load(ys[i])
  {
    seq(|xs|, i requires 0 <= i < |xs| => e.load(xs[i]) * e.load(ys[i]))
  }

  /** Lane `lane` of the values of the rows, each in its share. */
  ghost function Weighted(e: Exact, values: seq<seq<F32>>, shares: seq<real>, lane: nat): (r: seq<real>)
    requires |values| == |shares| && forall t | 0 <= t < |values| :: lane < |values[t]|
    ensures |r| == |values| && forall t | 0 <= t < |r| :: PartIs(e, values[t], shares[t], lane, r[t])
  {
    var r := seq(|values|, t requires 0 <= t < |values| => shares[t] * e.load(values[t][lane]));
    assert forall t | 0 <= t < |r| :: PartIs(e, values[t], shares[t], lane, r[t]);
    r
  }

  ghost predicate PartIs(e: Exact, value: seq<F32>, share: real, lane: nat, part: real) {
    lane < |value| && part == share * e.load(value[lane])
  }

  ghost predicate ScoresAre(e: Exact, query: seq<F32>, keys: seq<seq<F32>>, dim: nat, scores: seq<real>) {
    |scores| == |keys| && forall t | 0 <= t < |keys| :: ScoreIs(e, query, keys[t], dim, scores[t])
  }

  /** A scaled dot product. */
  ghost predicate ScoreIs(e: Exact, query: seq<F32>, key: seq<F32>, dim: nat, score: real) {
    |query| == |key| == dim && score == Sum(Products(e, query, key)) * e.scale(dim)
  }

  /** Attention of one query over keys and values: every output lane is the mean of that lane of the
      values, weighted by the softmax of the scaled dot products with the keys. */
  ghost predicate Attends(e: Exact, query: seq<F32>, keys: seq<seq<F32>>, values: seq<seq<F32>>, dim: nat,
                          output: seq<real>, scores: seq<real>, shares: seq<real>)
  {
    ScoresAre(e, query, keys, dim, scores) && Softmaxes(e, scores, shares) && |values| == |keys| &&
    forall lane | 0 <= lane < |output| ::
      (forall t | 0 <= t < |values| :: lane < |values[t]|) && output[lane] == Sum(Weighted(e, values, shares, lane))
  }

  // --- sums ------------------------------------------------------------------------------------------

  lemma {:induction false} SumPositive(xs: seq<real>, n: nat)
    requires n <= |xs| && forall i | 0 <= i < n :: xs[i] > 0.0
    ensures n > 0 ==> SumTo(xs, n) > 0.0
  {
    if n > 1 {
      SumPositive(xs, n - 1);
    }
  }

  lemma {:induction false} SumScaled(xs: seq<real>, ys: seq<real>, c: real, n: nat)
    requires n <= |xs| && n <= |ys| && forall i | 0 <= i < n :: ys[i] == xs[i] * c
    ensures SumTo(ys, n) == SumTo(xs, n) * c
  {
    if n > 0 {
      SumScaled(xs, ys, c, n - 1);
      Distribute(SumTo(xs, n - 1), xs[n - 1], c);
    }
  }

  lemma Distribute(x: real, y: real, c: real)
    ensures (x + y) * c == x * c + y * c
  {}

  /** The weights of a softmax are positive and add up to one. */
  lemma SharesSumToOne(e: Exact, scores: seq<real>, shares: seq<real>)
    requires e.Lawful() && Softmaxes(e, scores, shares) && scores != []
    ensures (forall t | 0 <= t < |shares| :: shares[t] > 0.0) && Sum(shares) == 1.0
  {
    var exps := Exps(e, scores);
    var total := Sum(exps);
    var c := 1.0 / total;
    forall t | 0 <= t < |scores| ensures shares[t] == exps[t] * c && shares[t] > 0.0 {
      assert ShareIs(e, scores, shares[t], t);
      assert e.PositiveAt(scores[t]);
      Quotient(exps[t], total, c);
    }
    SumScaled(exps, shares, c, |scores|);
    assert total * c == 1.0;
  }

  lemma Quotient(x: real, d: real, c: real)
    requires d > 0.0 && c == 1.0 / d
    ensures x / d == x * c && (x > 0.0 ==> x / d > 0.0)
  {}

  // --- what the kernel's functions are -------------------------------------------------------------------

  lemma {:induction false} DotIs(e: Exact, query: seq<F32>, key: seq<F32>, n: nat)
    requires |query| == |key| && n <= |query|
    ensures Dot(e.Ar(), query, key, n) == SumTo(Products(e, query, key), n)
  {
    if n > 0 {
      DotIs(e, query, key, n - 1);
    }
  }

  lemma {:induction false} TotalIs(e: Exact, weights: seq<real>, n: nat)
    requires n <= |weights|
    ensures Total(e.Ar(), weights, n) == SumTo(weights, n)
  {
    if n > 0 {
      TotalIs(e, weights, n - 1);
    }
  }

  /** Subtracting the same amount from every score scales every exponential by the same factor. */
  lemma WeightIs(e: Exact, scores: seq<real>, t: nat) returns (c: real)
    requires e.Lawful() && t < |scores|
    ensures c == e.exp(-Maximum(e.Ar(), scores, |scores|)) > 0.0
    ensures Weight(e.Ar(), scores, t) == Exps(e, scores)[t] * c
  {
    var m := Maximum(e.Ar(), scores, |scores|);
    c := e.exp(-m);
    assert e.PositiveAt(-m) && e.MultipliesAt(scores[t], -m);
    assert scores[t] - m == scores[t] + -m;
  }

  /** The maximum is one, so no exponent is positive. */
  lemma {:induction false} MaximumIsMost(e: Exact, scores: seq<real>, n: nat, t: nat)
    requires t < n <= |scores|
    ensures scores[t] <= Maximum(e.Ar(), scores, n)
    decreases n
  {
    if t < n - 1 {
      MaximumIsMost(e, scores, n - 1, t);
    }
  }

  lemma ShareOfWeights(x: real, total: real, c: real, w: real, sum: real)
    requires c > 0.0 && total > 0.0 && w == x * c && sum == total * c
    ensures sum > 0.0 && w / sum == x / total
  {
    assert sum > 0.0 by {
      Positive(total, c);
    }
    var q := x / total;
    assert x == q * total;
    assert w == q * sum by {
      Reorder(q, total, c);
    }
    Divides(w, q, sum);
  }

  lemma Positive(x: real, y: real)
    requires x > 0.0 && y > 0.0
    ensures x * y > 0.0
  {}

  lemma Reorder(q: real, total: real, c: real)
    ensures q * total * c == q * (total * c)
  {}

  lemma Divides(w: real, q: real, d: real)
    requires d > 0.0 && w == q * d
    ensures w / d == q
  {}

  // --- one head ------------------------------------------------------------------------------------------

  ghost function HeadKeys(shape: Shape, rows: seq<Row>, kv: nat): (r: seq<seq<F32>>)
    requires RowsSized(shape, rows) && kv < shape.heads
    ensures |r| == |rows| && forall t | 0 <= t < |r| :: r[t] == HeadKey(shape, rows[t], kv) && |r[t]| == shape.keyDim
  {
    seq(|rows|, t requires 0 <= t < |rows| => HeadKey(shape, rows[t], kv))
  }

  ghost function HeadValues(shape: Shape, rows: seq<Row>, kv: nat): (r: seq<seq<F32>>)
    requires RowsSized(shape, rows) && kv < shape.heads
    ensures |r| == |rows| &&
            forall t | 0 <= t < |r| :: r[t] == HeadValue(shape, rows[t], kv) && |r[t]| == shape.valueDim
  {
    seq(|rows|, t requires 0 <= t < |rows| => HeadValue(shape, rows[t], kv))
  }

  lemma ScoresMean(e: Exact, shape: Shape, rows: seq<Row>, kv: nat, query: seq<F32>)
    requires RowsSized(shape, rows) && kv < shape.heads && |query| == shape.keyDim
    ensures ScoresAre(e, query, HeadKeys(shape, rows, kv), shape.keyDim, Scores(e.Ar(), shape, rows, kv, query))
  {
    var scores, keys := Scores(e.Ar(), shape, rows, kv, query), HeadKeys(shape, rows, kv);
    forall t | 0 <= t < |rows| ensures ScoreIs(e, query, keys[t], shape.keyDim, scores[t]) {
      ScoreMeans(e, shape, rows[t], kv, query);
    }
  }

  lemma ScoreMeans(e: Exact, shape: Shape, row: Row, kv: nat, query: seq<F32>)
    requires RowSized(shape, row) && kv < shape.heads && |query| == shape.keyDim
    ensures ScoreIs(e, query, HeadKey(shape, row, kv), shape.keyDim, Score(e.Ar(), shape, row, kv, query))
  {
    DotIs(e, query, HeadKey(shape, row, kv), shape.keyDim);
  }

  /** The shares the kernel takes: each weight over the sum of all weights. */
  ghost function Shares(e: Exact, scores: seq<real>): (r: seq<real>)
    ensures |r| == |scores|
  {
    var weights := Weights(e.Ar(), scores);
    seq(|scores|, t requires 0 <= t < |scores| => e.Ar().div(weights[t], Total(e.Ar(), weights, |weights|)))
  }

  lemma WeightsScaled(e: Exact, scores: seq<real>) returns (c: real)
    requires e.Lawful() && scores != []
    ensures c > 0.0 && Sum(Exps(e, scores)) > 0.0
    ensures forall t | 0 <= t < |scores| :: Weights(e.Ar(), scores)[t] == Exps(e, scores)[t] * c
    ensures Total(e.Ar(), Weights(e.Ar(), scores), |scores|) == Sum(Exps(e, scores)) * c
  {
    c := EachScaled(e, scores);
    var weights, exps := Weights(e.Ar(), scores), Exps(e, scores);
    SumScaled(exps, weights, c, |scores|);
    TotalIs(e, weights, |scores|);
    SumPositive(exps, |scores|);
  }

  lemma EachScaled(e: Exact, scores: seq<real>) returns (c: real)
    requires e.Lawful() && scores != []
    ensures c > 0.0
    ensures forall t | 0 <= t < |scores| :: Weights(e.Ar(), scores)[t] == Exps(e, scores)[t] * c
    ensures forall t | 0 <= t < |scores| :: Exps(e, scores)[t] > 0.0
  {
    c := WeightIs(e, scores, 0);
    forall t | 0 <= t < |scores|
      ensures Weights(e.Ar(), scores)[t] == Exps(e, scores)[t] * c && Exps(e, scores)[t] > 0.0
    {
      var d := WeightIs(e, scores, t);
      assert e.PositiveAt(scores[t]);
    }
  }

  lemma SharesMean(e: Exact, scores: seq<real>)
    requires e.Lawful() && scores != []
    ensures Softmaxes(e, scores, Shares(e, scores))
  {
    var c := WeightsScaled(e, scores);
    var weights, exps := Weights(e.Ar(), scores), Exps(e, scores);
    var sum := Total(e.Ar(), weights, |weights|);
    forall t | 0 <= t < |scores| ensures ShareIs(e, scores, Shares(e, scores)[t], t) {
      ShareOfWeights(exps[t], Sum(exps), c, weights[t], sum);
    }
  }

  lemma LaneIs(e: Exact, shape: Shape, rows: seq<Row>, kv: nat, scores: seq<real>, lane: nat)
    requires RowsSized(shape, rows) && kv < shape.heads && |scores| == |rows| && lane < shape.valueDim
    ensures Lane(e.Ar(), shape, rows, kv, Weights(e.Ar(), scores), lane, |rows|) ==
            Sum(Weighted(e, HeadValues(shape, rows, kv), Shares(e, scores), lane))
  {
    var f, weights := e.Ar(), Weights(e.Ar(), scores);
    var parts := Weighted(e, HeadValues(shape, rows, kv), Shares(e, scores), lane);
    for t := 0 to |rows|
      invariant Lane(f, shape, rows, kv, weights, lane, t) == SumTo(parts, t)
    {
      LaneStep(e, shape, rows, kv, scores, lane, t);
    }
  }

  lemma LaneStep(e: Exact, shape: Shape, rows: seq<Row>, kv: nat, scores: seq<real>, lane: nat, t: nat)
    requires RowsSized(shape, rows) && kv < shape.heads && |scores| == |rows| && lane < shape.valueDim && t < |rows|
    ensures var weights := Weights(e.Ar(), scores);
            Lane(e.Ar(), shape, rows, kv, weights, lane, t + 1) ==
            Lane(e.Ar(), shape, rows, kv, weights, lane, t) +
            Weighted(e, HeadValues(shape, rows, kv), Shares(e, scores), lane)[t]
  {
    var values, shares, weights := HeadValues(shape, rows, kv), Shares(e, scores), Weights(e.Ar(), scores);
    LaneNext(e.Ar(), shape, rows, kv, weights, lane, t);
    assert PartIs(e, values[t], shares[t], lane, Weighted(e, values, shares, lane)[t]);
    ExactPart(e, Lane(e.Ar(), shape, rows, kv, weights, lane, t), shares[t], values[t], lane,
              Weighted(e, values, shares, lane)[t]);
  }

  lemma ExactPart(e: Exact, sum: real, share: real, value: seq<F32>, lane: nat, part: real)
    requires PartIs(e, value, share, lane, part)
    ensures e.Ar().add(sum, e.Ar().mul(share, e.Ar().load(value[lane]))) == sum + part
  {}

  /** One query head over the rows it may see. */
  lemma HeadMeans(e: Exact, shape: Shape, rows: seq<Row>, kv: nat, query: seq<F32>)
    returns (scores: seq<real>, shares: seq<real>)
    requires e.Lawful() && RowsSized(shape, rows) && rows != [] && kv < shape.heads && |query| == shape.keyDim
    ensures var context := HeadContext(e.Ar(), shape, rows, kv, query);
            context.Some? && |context.value| == shape.valueDim &&
            Attends(e, query, HeadKeys(shape, rows, kv), HeadValues(shape, rows, kv), shape.keyDim, context.value,
                    scores, shares)
  {
    scores := Scores(e.Ar(), shape, rows, kv, query);
    shares := Shares(e, scores);
    ScoresMean(e, shape, rows, kv, query);
    SharesMean(e, scores);
    var context := HeadContext(e.Ar(), shape, rows, kv, query);
    forall lane | 0 <= lane < shape.valueDim
      ensures context.value[lane] == Sum(Weighted(e, HeadValues(shape, rows, kv), shares, lane))
    {
      LaneIs(e, shape, rows, kv, scores, lane);
    }
  }

  // --- a whole call ----------------------------------------------------------------------------------------

  /** What one head of one token looks at and produces. */
  datatype Look = Look(
    query: seq<F32>,
    keys: seq<seq<F32>>,
    values: seq<seq<F32>>,
    scores: seq<real>,
    shares: seq<real>,
    output: seq<real>)

  /** Key `t` of KV head `kv`: out of the cache for a stored token, out of the batch for a new one. */
  ghost predicate KeySeen(shape: Shape, stored: seq<Row>, input: Input, kv: nat, t: nat, key: seq<F32>) {
    |key| == shape.keyDim &&
    if t < |stored| then IsSlice(stored[t].keys, kv * shape.keyDim, key)
    else IsSlice(input.keys, ((t - |stored|) * shape.heads + kv) * shape.keyDim, key)
  }

  ghost predicate ValueSeen(shape: Shape, stored: seq<Row>, input: Input, kv: nat, t: nat, value: seq<F32>) {
    |value| == shape.valueDim &&
    if t < |stored| then IsSlice(stored[t].values, kv * shape.valueDim, value)
    else IsSlice(input.values, ((t - |stored|) * shape.heads + kv) * shape.valueDim, value)
  }

  /** Head `head` of token `token`: its query attends to the keys and values of KV head `kv` of every
      stored token and of the batch up to itself, and the result is at its place in the output. */
  ghost predicate LooksAt(e: Exact, shape: Shape, stored: seq<Row>, input: Input, out: seq<real>, token: nat, head: nat,
                          kv: nat, a: Look)
  {
    At(input.queries, input.queryHeads, shape.keyDim, token, head, a.query) &&
    RowsSeen(shape, stored, input, token, kv, a.keys, a.values) &&
    Attends(e, a.query, a.keys, a.values, shape.keyDim, a.output, a.scores, a.shares) &&
    At(out, input.queryHeads, shape.valueDim, token, head, a.output)
  }

  /** Buffers hold `dim` values per head, head after head, token after token. */
  ghost predicate At<T>(buffer: seq<T>, heads: nat, dim: nat, token: nat, head: nat, part: seq<T>) {
    |part| == dim && IsSlice(buffer, (token * heads + head) * dim, part)
  }

  ghost predicate RowsSeen(shape: Shape, stored: seq<Row>, input: Input, token: nat, kv: nat, keys: seq<seq<F32>>,
                           values: seq<seq<F32>>)
  {
    |keys| == |values| == |stored| + token + 1 &&
    (forall t: nat | t < |keys| :: KeySeen(shape, stored, input, kv, t, keys[t])) &&
    forall t: nat | t < |values| :: ValueSeen(shape, stored, input, kv, t, values[t])
  }

  lemma {:induction false} CollectAt<F>(pieces: Pieces<F>, n: nat, width: nat, h: nat)
    requires h < n <= |pieces| && forall i | 0 <= i < n :: pieces[i].Some? && |pieces[i].value| == width
    ensures Collect(pieces, n).Some? && |Collect(pieces, n).value| == Times(n, width)
    ensures IsSlice(Collect(pieces, n).value, Times(h, width), pieces[h].value)
    decreases n
  {
    CollectAll(pieces, n - 1, width);
    if h < n - 1 {
      CollectAt(pieces, n - 1, width, h);
      StillSlice(Collect(pieces, n - 1).value, pieces[n - 1].value, Times(h, width), pieces[h].value);
    }
  }

  lemma {:induction false} CollectAll<F>(pieces: Pieces<F>, n: nat, width: nat)
    requires n <= |pieces| && forall i | 0 <= i < n :: pieces[i].Some? && |pieces[i].value| == width
    ensures Collect(pieces, n).Some? && |Collect(pieces, n).value| == Times(n, width)
    decreases n
  {
    if n > 0 {
      CollectAll(pieces, n - 1, width);
    }
  }

  lemma OneKvHead(heads: nat, queryHeads: nat, head: nat, kv: nat, shape: Shape)
    requires shape.heads == heads && Grouped(shape, queryHeads) && head < queryHeads
    requires kv * (queryHeads / heads) <= head < kv * (queryHeads / heads) + queryHeads / heads
    ensures kv == KvHead(shape, queryHeads, head)
  {
    KvHeadIs(shape, queryHeads, head);
    var group, other := queryHeads / heads, KvHead(shape, queryHeads, head);
    MixedRadix(kv, head - kv * group, other, head - other * group, group);
  }

  lemma KeyIsSeen(shape: Shape, stored: seq<Row>, input: Input, token: nat, kv: nat, t: nat)
    requires RowsSized(shape, stored) && InputSized(shape, input) && token < input.tokens && kv < shape.heads
    requires t < |stored| + token + 1
    ensures var row := Seen(shape, stored, input, token)[t];
            KeySeen(shape, stored, input, kv, t, HeadKey(shape, row, kv)) &&
            ValueSeen(shape, stored, input, kv, t, HeadValue(shape, row, kv))
  {
    HeadFits(shape, kv);
    TimesIsProduct(kv, shape.keyDim);
    TimesIsProduct(kv, shape.valueDim);
    if t >= |stored| {
      SourceHead(shape, input.tokens, input.keys, input.values, t - |stored|, kv);
    }
  }

  lemma AllSeen(shape: Shape, stored: seq<Row>, input: Input, token: nat, kv: nat)
    requires RowsSized(shape, stored) && InputSized(shape, input) && token < input.tokens && kv < shape.heads
    ensures var rows := Seen(shape, stored, input, token);
            RowsSeen(shape, stored, input, token, kv, HeadKeys(shape, rows, kv), HeadValues(shape, rows, kv))
  {
    var rows := Seen(shape, stored, input, token);
    forall t: nat | t < |rows|
      ensures KeySeen(shape, stored, input, kv, t, HeadKeys(shape, rows, kv)[t])
      ensures ValueSeen(shape, stored, input, kv, t, HeadValues(shape, rows, kv)[t])
    {
      KeyIsSeen(shape, stored, input, token, kv, t);
    }
  }

  lemma QueryIsSlice(shape: Shape, input: Input, token: nat, head: nat)
    requires InputSized(shape, input) && token < input.tokens && head < input.queryHeads
    ensures At(input.queries, input.queryHeads, shape.keyDim, token, head,
               QueryOf(shape, input.queryHeads, TokenQueries(shape, input, token), head))
  {
    HeadOffset(input.queryHeads, shape.keyDim, token, head);
    RowFits(token, input.tokens, QueryRow(shape, input));
    RowFits(head, input.queryHeads, shape.keyDim);
    SliceOfPart(input.queries, Times(token, QueryRow(shape, input)), TokenQueries(shape, input, token),
                Times(head, shape.keyDim), QueryOf(shape, input.queryHeads, TokenQueries(shape, input, token), head));
  }

  lemma PieceMeans(e: Exact, shape: Shape, rows: seq<Row>, queryHeads: nat, queries: seq<F32>, head: nat)
    requires e.Lawful() && RowsSized(shape, rows) && rows != [] && Grouped(shape, queryHeads)
    requires |queries| == Times(queryHeads, shape.keyDim) && head < queryHeads
    ensures var piece := HeadPiece(e.Ar(), shape, rows, queryHeads, queries, head);
            piece.Some? && |piece.value| == shape.valueDim
  {
    var scores, shares := HeadMeans(e, shape, rows, KvHead(shape, queryHeads, head),
                                    QueryOf(shape, queryHeads, queries, head));
  }

  /** Over reals no value is refused, so a token has an output row, with each head at its place. */
  lemma TokenMeans(e: Exact, shape: Shape, rows: seq<Row>, queryHeads: nat, queries: seq<F32>, head: nat)
    requires e.Lawful() && RowsSized(shape, rows) && rows != [] && Grouped(shape, queryHeads)
    requires |queries| == Times(queryHeads, shape.keyDim) && head < queryHeads
    ensures var context := TokenContext(e.Ar(), shape, rows, queryHeads, queries);
            var piece := HeadPiece(e.Ar(), shape, rows, queryHeads, queries, head);
            context.Some? && piece.Some? && IsSlice(context.value, Times(head, shape.valueDim), piece.value)
  {
    var pieces := HeadPieces(e.Ar(), shape, rows, queryHeads, queries);
    forall h | 0 <= h < queryHeads ensures pieces[h].Some? && |pieces[h].value| == shape.valueDim {
      PieceMeans(e, shape, rows, queryHeads, queries, h);
    }
    CollectAt(pieces, queryHeads, shape.valueDim, head);
  }

  lemma BatchMeans(e: Exact, shape: Shape, stored: seq<Row>, input: Input, token: nat)
    requires e.Lawful() && RowsSized(shape, stored) && InputSized(shape, input) && token < input.tokens
    ensures var batch, piece := Batch(e.Ar(), shape, stored, input), TokenPiece(e.Ar(), shape, stored, input, token);
            batch.Some? && piece.Some? &&
            IsSlice(batch.value, Times(token, OutputRow(shape, input)), piece.value)
  {
    var pieces := TokenPieces(e.Ar(), shape, stored, input);
    forall t | 0 <= t < input.tokens ensures pieces[t].Some? && |pieces[t].value| == OutputRow(shape, input) {
      TokenMeans(e, shape, Seen(shape, stored, input, t), input.queryHeads, TokenQueries(shape, input, t), 0);
    }
    CollectAt(pieces, input.tokens, OutputRow(shape, input), token);
  }

  /** Every accepted call, every token, every query head: the output is the softmax-weighted mean of the
      values its KV head holds for the tokens it may see. The KV head is the one whose group of
      consecutive query heads contains it. */
  lemma AttentionMeans(e: Exact, shape: Shape, flat: Flat, layer: nat, input: Input, sizes: Buffers, token: nat,
                       head: nat, kv: nat) returns (a: Look)
    requires e.Lawful() && FlatValid(shape, flat) && Accepts(shape, flat, layer, input, sizes)
    requires token < input.tokens && head < input.queryHeads
    requires var group := input.queryHeads / shape.heads;
             kv * group <= head < kv * group + group
    ensures var result := Attend(e.Ar(), shape, flat, layer, input, sizes);
            result.Some? && LooksAt(e, shape, flat[layer], input, result.value.1, token, head, kv, a)
  {
    var stored := flat[layer];
    OneKvHead(shape.heads, input.queryHeads, head, kv, shape);
    BatchMeans(e, shape, stored, input, token);
    a := HeadLook(e, shape, stored, input, Batch(e.Ar(), shape, stored, input).value, token, head, kv);
  }

  lemma HeadLook(e: Exact, shape: Shape, stored: seq<Row>, input: Input, out: seq<real>, token: nat, head: nat, kv: nat)
    returns (a: Look)
    requires e.Lawful() && RowsSized(shape, stored) && InputSized(shape, input)
    requires token < input.tokens && head < input.queryHeads && kv == KvHead(shape, input.queryHeads, head)
    requires var piece := TokenPiece(e.Ar(), shape, stored, input, token);
             piece.Some? && IsSlice(out, Times(token, OutputRow(shape, input)), piece.value)
    ensures LooksAt(e, shape, stored, input, out, token, head, kv, a)
  {
    var rows, queries := Seen(shape, stored, input, token), TokenQueries(shape, input, token);
    var query := QueryOf(shape, input.queryHeads, queries, head);
    var scores, shares := HeadMeans(e, shape, rows, kv, query);
    var output := HeadContext(e.Ar(), shape, rows, kv, query).value;
    a := Look(query, HeadKeys(shape, rows, kv), HeadValues(shape, rows, kv), scores, shares, output);
    QueryIsSlice(shape, input, token, head);
    AllSeen(shape, stored, input, token, kv);
    var row := HeadsInRow(e, shape, stored, input, token, head, output);
    InPlace(out, input.queryHeads, shape.valueDim, token, head, row, output);
  }

  lemma HeadsInRow(e: Exact, shape: Shape, stored: seq<Row>, input: Input, token: nat, head: nat, output: seq<real>)
    returns (row: seq<real>)
    requires e.Lawful() && RowsSized(shape, stored) && InputSized(shape, input)
    requires token < input.tokens && head < input.queryHeads
    requires var rows, queries := Seen(shape, stored, input, token), TokenQueries(shape, input, token);
             HeadPiece(e.Ar(), shape, rows, input.queryHeads, queries, head) == Some(output)
    ensures TokenPiece(e.Ar(), shape, stored, input, token) == Some(row)
    ensures IsSlice(row, Times(head, shape.valueDim), output)
  {
    var rows, queries := Seen(shape, stored, input, token), TokenQueries(shape, input, token);
    TokenMeans(e, shape, rows, input.queryHeads, queries, head);
    row := TokenContext(e.Ar(), shape, rows, input.queryHeads, queries).value;
  }

  lemma InPlace(out: seq<real>, heads: nat, dim: nat, token: nat, head: nat, row: seq<real>, output: seq<real>)
    requires IsSlice(out, Times(token, Times(heads, dim)), row) && IsSlice(row, Times(head, dim), output)
    requires |output| == dim
    ensures At(out, heads, dim, token, head, output)
  {
    SliceOfPart(out, Times(token, Times(heads, dim)), row, Times(head, dim), output);
    HeadOffset(heads, dim, token, head);
  }
}
