/** Causal grouped-query attention over the KV cache. Float operations are uninterpreted, so
    two results that are equal here are computed by the same operations in the same order. */
module Attention {
  import opened Common
  import opened KvLayout
  import opened PagedKv

  /** Arithmetic on values of type `F`. Cached keys and values and the queries are F32; `load` says
      what they are worth. */
  datatype Float<!F> = Float(
    zero: F,
    /** Where a running maximum starts. */
    lowest: F,
    load: F32 -> F,
    finite: F -> bool,
    mul: (F, F) -> F,
    add: (F, F) -> F,
    sub: (F, F) -> F,
    div: (F, F) -> F,
    max: (F, F) -> F,
    exp: F -> F,
    /** 1 / sqrt(key dimension) */
    scale: nat -> F)

  /** The arithmetic of the machine: values are F32 bit patterns, the operations are whatever the
      hardware does. */
  function Hardware(mul: (F32, F32) -> F32, add: (F32, F32) -> F32, sub: (F32, F32) -> F32, div: (F32, F32) -> F32,
                    max: (F32, F32) -> F32, exp: F32 -> F32, scale: nat -> F32): Float<F32>
  {
    Float(0, 0xFF80_0000, (x: F32) => x, (x: F32) => IsFinite(x), mul, add, sub, div, max, exp, scale)
  }

  predicate AllUsable<F>(f: Float<F>, xs: seq<F>) {
    forall i | 0 <= i < |xs| :: f.finite(xs[i])
  }

  type Pieces<F> = seq<Option<seq<F>>>

  /** The first `n` pieces, side by side; `None` as soon as one of them failed. */
  ghost function Collect<F>(pieces: Pieces<F>, n: nat): Option<seq<F>>
    requires n <= |pieces|
  {
    if n == 0 then Some([]) else Join(Collect(pieces, n - 1), pieces[n - 1])
  }

  function Join<F>(before: Option<seq<F>>, next: Option<seq<F>>): Option<seq<F>> {
    if before.Some? && next.Some? then Some(before.value + next.value) else None
  }

  lemma {:induction false} CollectLength<F>(pieces: Pieces<F>, n: nat, width: nat)
    requires n <= |pieces| && forall i | 0 <= i < n && pieces[i].Some? :: |pieces[i].value| == width
    ensures Collect(pieces, n).Some? ==> |Collect(pieces, n).value| == Times(n, width)
  {
    if n > 0 {
      CollectLength(pieces, n - 1, width);
    }
  }

  lemma {:induction false} CollectFailsEarly<F>(pieces: Pieces<F>, m: nat, n: nat)
    requires m <= n <= |pieces| && Collect(pieces, m) == None
    ensures Collect(pieces, n) == None
  {
    if m < n {
      CollectFailsEarly(pieces, m, n - 1);
    }
  }

  // --- one query head --------------------------------------------------------------------

  function Dot<F>(f: Float<F>, query: seq<F32>, key: seq<F32>, n: nat): F
    requires n <= |query| && n <= |key|
  {
    if n == 0 then f.zero else f.add(Dot(f, query, key, n - 1), f.mul(f.load(query[n - 1]), f.load(key[n - 1])))
  }

  ghost function Score<F>(f: Float<F>, shape: Shape, row: Row, head: nat, query: seq<F32>): F
    requires RowSized(shape, row) && head < shape.heads && |query| == shape.keyDim
  {
    f.mul(Dot(f, query, HeadKey(shape, row, head), shape.keyDim), f.scale(shape.keyDim))
  }

  ghost function Scores<F>(f: Float<F>, shape: Shape, rows: seq<Row>, head: nat, query: seq<F32>): (r: seq<F>)
    requires RowsSized(shape, rows) && head < shape.heads && |query| == shape.keyDim
    ensures |r| == |rows|
  {
    seq(|rows|, t requires 0 <= t < |rows| => Score(f, shape, rows[t], head, query))
  }

  function Maximum<F>(f: Float<F>, scores: seq<F>, n: nat): F
    requires n <= |scores|
  {
    if n == 0 then f.lowest else f.max(Maximum(f, scores, n - 1), scores[n - 1])
  }

  function Weight<F>(f: Float<F>, scores: seq<F>, t: nat): F
    requires t < |scores|
  {
    f.exp(f.sub(scores[t], Maximum(f, scores, |scores|)))
  }

  ghost function Weights<F>(f: Float<F>, scores: seq<F>): (r: seq<F>)
    ensures |r| == |scores|
  {
    seq(|scores|, t requires 0 <= t < |scores| => Weight(f, scores, t))
  }

  function Total<F>(f: Float<F>, weights: seq<F>, n: nat): F
    requires n <= |weights|
  {
    if n == 0 then f.zero else f.add(Total(f, weights, n - 1), weights[n - 1])
  }

  ghost function Lane<F>(f: Float<F>, shape: Shape, rows: seq<Row>, head: nat, weights: seq<F>, lane: nat, n: nat): F
    requires RowsSized(shape, rows) && head < shape.heads && |weights| == |rows| && lane < shape.valueDim && n <= |rows|
  {
    if n == 0 then f.zero
    else
      var share := f.div(weights[n - 1], Total(f, weights, |weights|));
      f.add(Lane(f, shape, rows, head, weights, lane, n - 1),
            f.mul(share, f.load(HeadValue(shape, rows[n - 1], head)[lane])))
  }

  lemma LaneNext<F>(f: Float<F>, shape: Shape, rows: seq<Row>, head: nat, weights: seq<F>, lane: nat, n: nat)
    requires RowsSized(shape, rows) && head < shape.heads && |weights| == |rows| && lane < shape.valueDim && n < |rows|
    ensures Lane(f, shape, rows, head, weights, lane, n + 1) ==
            f.add(Lane(f, shape, rows, head, weights, lane, n),
                  f.mul(f.div(weights[n], Total(f, weights, |weights|)), f.load(HeadValue(shape, rows[n], head)[lane])))
  {}

  ghost function Lanes<F>(f: Float<F>, shape: Shape, rows: seq<Row>, head: nat, weights: seq<F>): (r: seq<F>)
    requires RowsSized(shape, rows) && head < shape.heads && |weights| == |rows|
    ensures |r| == shape.valueDim
  {
    seq(shape.valueDim, lane requires 0 <= lane < shape.valueDim => Lane(f, shape, rows, head, weights, lane, |rows|))
  }

  /** What one query head attends to over the rows it may see; `None` when a score, the softmax
      denominator or an output lane is not finite. */
  ghost function HeadContext<F>(f: Float<F>, shape: Shape, rows: seq<Row>, head: nat,
                                query: seq<F32>): (r: Option<seq<F>>)
    requires RowsSized(shape, rows) && head < shape.heads && |query| == shape.keyDim
    ensures r.Some? ==> |r.value| == shape.valueDim
  {
    var scores := Scores(f, shape, rows, head, query);
    var weights := Weights(f, scores);
    var lanes := Lanes(f, shape, rows, head, weights);
    if AllUsable(f, scores) && f.finite(Total(f, weights, |weights|)) && AllUsable(f, lanes) then Some(lanes) else None
  }

  // --- one token ---------------------------------------------------------------------------

  predicate Grouped(shape: Shape, queryHeads: nat) {
    0 < shape.heads && 0 < queryHeads && queryHeads % shape.heads == 0
  }

  /** How many query heads share a KV head. */
  function GroupSize(shape: Shape, queryHeads: nat): (r: nat)
    requires Grouped(shape, queryHeads)
    ensures 0 < r
  {
    Groups(shape, queryHeads);
    PageOf(queryHeads, shape.heads)
  }

  lemma Groups(shape: Shape, queryHeads: nat)
    requires Grouped(shape, queryHeads)
    ensures 0 < PageOf(queryHeads, shape.heads) == queryHeads / shape.heads
    ensures Times(shape.heads, PageOf(queryHeads, shape.heads)) == queryHeads
  {
    Located(queryHeads, shape.heads);
    TimesIsProduct(PageOf(queryHeads, shape.heads), shape.heads);
    TimesIsProduct(shape.heads, PageOf(queryHeads, shape.heads));
  }

  /** The KV head a query head attends to. */
  function KvHead(shape: Shape, queryHeads: nat, queryHead: nat): (r: nat)
    requires Grouped(shape, queryHeads) && queryHead < queryHeads
    ensures r < shape.heads
  {
    KvHeadInRange(shape, queryHeads, queryHead);
    PageOf(queryHead, GroupSize(shape, queryHeads))
  }

  lemma KvHeadInRange(shape: Shape, queryHeads: nat, queryHead: nat)
    requires Grouped(shape, queryHeads) && queryHead < queryHeads
    ensures PageOf(queryHead, GroupSize(shape, queryHeads)) < shape.heads
  {
    var group := GroupSize(shape, queryHeads);
    Groups(shape, queryHeads);
    Located(queryHead, group);
    var kv := PageOf(queryHead, group);
    if shape.heads <= kv {
      MoreRows(shape.heads, kv, group);
    }
  }

  lemma {:induction false} MoreRows(m: nat, n: nat, width: nat)
    requires m <= n
    ensures Times(m, width) <= Times(n, width)
  {
    if m < n {
      MoreRows(m, n - 1, width);
    }
  }

  /** Query heads attend in contiguous groups of equal size, one per KV head, in order. */
  lemma KvHeadIs(shape: Shape, queryHeads: nat, queryHead: nat)
    requires Grouped(shape, queryHeads) && queryHead < queryHeads
    ensures var group, kv := queryHeads / shape.heads, KvHead(shape, queryHeads, queryHead);
            0 < group && queryHeads == shape.heads * group &&
            kv * group <= queryHead < kv * group + group && kv == queryHead / group
  {
    var group := GroupSize(shape, queryHeads);
    Groups(shape, queryHeads);
    TimesIsProduct(shape.heads, group);
    Located(queryHead, group);
    TimesIsProduct(KvHead(shape, queryHeads, queryHead), group);
  }

  ghost function QueryOf(shape: Shape, queryHeads: nat, queries: seq<F32>, head: nat): (r: seq<F32>)
    requires |queries| == Times(queryHeads, shape.keyDim) && head < queryHeads
    ensures |r| == shape.keyDim
  {
    RowFits(head, queryHeads, shape.keyDim);
    Slice(queries, Times(head, shape.keyDim), shape.keyDim)
  }

  ghost function HeadPiece<F>(f: Float<F>, shape: Shape, rows: seq<Row>, queryHeads: nat, queries: seq<F32>,
                           head: nat): (r: Option<seq<F>>)
    requires RowsSized(shape, rows) && Grouped(shape, queryHeads) && |queries| == Times(queryHeads, shape.keyDim) &&
             head < queryHeads
    ensures r.Some? ==> |r.value| == shape.valueDim
  {
    HeadContext(f, shape, rows, KvHead(shape, queryHeads, head), QueryOf(shape, queryHeads, queries, head))
  }

  ghost function HeadPieces<F>(f: Float<F>, shape: Shape, rows: seq<Row>, queryHeads: nat,
                               queries: seq<F32>): (r: Pieces<F>)
    requires RowsSized(shape, rows) && Grouped(shape, queryHeads) && |queries| == Times(queryHeads, shape.keyDim)
    ensures |r| == queryHeads && forall h | 0 <= h < |r| :: r[h] == HeadPiece(f, shape, rows, queryHeads, queries, h)
  {
    seq(queryHeads, h requires 0 <= h < queryHeads => HeadPiece(f, shape, rows, queryHeads, queries, h))
  }

  /** All query heads of one token, side by side. */
  ghost function TokenContext<F>(f: Float<F>, shape: Shape, rows: seq<Row>, queryHeads: nat,
                              queries: seq<F32>): (r: Option<seq<F>>)
    requires RowsSized(shape, rows) && Grouped(shape, queryHeads) && |queries| == Times(queryHeads, shape.keyDim)
    ensures r.Some? ==> |r.value| == Times(queryHeads, shape.valueDim)
  {
    CollectLength(HeadPieces(f, shape, rows, queryHeads, queries), queryHeads, shape.valueDim);
    Collect(HeadPieces(f, shape, rows, queryHeads, queries), queryHeads)
  }

  // --- a batch of tokens ---------------------------------------------------------------------

  datatype Input = Input(tokens: nat, queryHeads: nat, queries: seq<F32>, keys: seq<F32>, values: seq<F32>)

  function QueryRow(shape: Shape, input: Input): nat { Times(input.queryHeads, shape.keyDim) }

  function OutputRow(shape: Shape, input: Input): nat { Times(input.queryHeads, shape.valueDim) }

  predicate InputSized(shape: Shape, input: Input) {
    Grouped(shape, input.queryHeads) && BuffersFor(shape, input.tokens, input.keys, input.values) &&
    |input.queries| == Times(input.tokens, QueryRow(shape, input))
  }

  /** Query rows of one token of the batch. */
  ghost function TokenQueries(shape: Shape, input: Input, token: nat): (r: seq<F32>)
    requires InputSized(shape, input) && token < input.tokens
    ensures |r| == QueryRow(shape, input)
  {
    RowFits(token, input.tokens, QueryRow(shape, input));
    Slice(input.queries, Times(token, QueryRow(shape, input)), QueryRow(shape, input))
  }

  /** Token `token` of the batch sees the stored rows, the batch rows before it and its own. */
  ghost function Seen(shape: Shape, stored: seq<Row>, input: Input, token: nat): (r: seq<Row>)
    requires RowsSized(shape, stored) && InputSized(shape, input) && token < input.tokens
    ensures RowsSized(shape, r) && |r| == |stored| + token + 1
  {
    var rows := stored + SourceRows(shape, input.tokens, input.keys, input.values);
    rows[..|stored| + token + 1]
  }

  ghost function TokenPiece<F>(f: Float<F>, shape: Shape, stored: seq<Row>, input: Input,
                               token: nat): (r: Option<seq<F>>)
    requires RowsSized(shape, stored) && InputSized(shape, input) && token < input.tokens
    ensures r.Some? ==> |r.value| == OutputRow(shape, input)
  {
    TokenContext(f, shape, Seen(shape, stored, input, token), input.queryHeads, TokenQueries(shape, input, token))
  }

  ghost function TokenPieces<F>(f: Float<F>, shape: Shape, stored: seq<Row>, input: Input): (r: Pieces<F>)
    requires RowsSized(shape, stored) && InputSized(shape, input)
    ensures |r| == input.tokens && forall t | 0 <= t < |r| :: r[t] == TokenPiece(f, shape, stored, input, t)
  {
    seq(input.tokens, t requires 0 <= t < input.tokens => TokenPiece(f, shape, stored, input, t))
  }

  /** The output rows of the batch. */
  ghost function Batch<F>(f: Float<F>, shape: Shape, stored: seq<Row>, input: Input): (r: Option<seq<F>>)
    requires RowsSized(shape, stored) && InputSized(shape, input)
    ensures r.Some? ==> |r.value| == Times(input.tokens, OutputRow(shape, input))
  {
    CollectLength(TokenPieces(f, shape, stored, input), input.tokens, OutputRow(shape, input));
    Collect(TokenPieces(f, shape, stored, input), input.tokens)
  }

  // --- the whole call ----------------------------------------------------------------------------

  /** Sizes of the caller's output and of the two scratch buffers. */
  datatype Buffers = Buffers(output: nat, scores: nat, scratch: nat)

  predicate Accepts(shape: Shape, flat: Flat, layer: nat, input: Input, sizes: Buffers) {
    layer < shape.layers && layer < |flat| && 0 < input.tokens && Grouped(shape, input.queryHeads) &&
    Times(input.tokens, QueryRow(shape, input)) <= USIZE_MAX &&
    Times(input.tokens, OutputRow(shape, input)) <= USIZE_MAX &&
    Times(input.tokens, shape.KeyRow()) <= USIZE_MAX && Times(input.tokens, shape.ValueRow()) <= USIZE_MAX &&
    InputSized(shape, input) && sizes.output == Times(input.tokens, OutputRow(shape, input)) &&
    AllFinite(input.queries) && AllFinite(input.keys) && AllFinite(input.values) &&
    |flat[layer]| + input.tokens <= shape.capacity && |flat[layer]| + input.tokens <= USIZE_MAX &&
    |flat[layer]| + input.tokens <= sizes.scores && sizes.output <= sizes.scratch
  }

  /** The KV rows and the output after a successful call; `None` when the call fails. */
  ghost function Attend<F>(f: Float<F>, shape: Shape, flat: Flat, layer: nat, input: Input,
                        sizes: Buffers): Option<(Flat, seq<F>)>
    requires FlatValid(shape, flat)
  {
    if !Accepts(shape, flat, layer, input, sizes) then None
    else match Batch(f, shape, flat[layer], input)
      case None => None
      case Some(out) => Some((FlatAppend(shape, flat, layer, input.tokens, input.keys, input.values), out))
  }

  // --- one token at a time --------------------------------------------------------------------------

  ghost function OneToken(shape: Shape, input: Input, token: nat): (r: Input)
    requires InputSized(shape, input) && token < input.tokens
    ensures InputSized(shape, r) && r.tokens == 1 && r.queryHeads == input.queryHeads
  {
    var row := SourceRow(shape, input.tokens, input.keys, input.values, token);
    var one := Input(1, input.queryHeads, TokenQueries(shape, input, token), row.keys, row.values);
    TimesOne(shape.KeyRow());
    TimesOne(shape.ValueRow());
    TimesOne(QueryRow(shape, one));
    one
  }

  function OneTokenBuffers(shape: Shape, input: Input, sizes: Buffers): Buffers {
    Buffers(OutputRow(shape, input), sizes.scores, sizes.scratch)
  }

  /** The call for one token after the calls before it. */
  ghost function NextCall<F>(f: Float<F>, shape: Shape, done: Option<(Flat, seq<F>)>, layer: nat, input: Input,
                          sizes: Buffers, token: nat): Option<(Flat, seq<F>)>
    requires InputSized(shape, input) && token < input.tokens
  {
    if done.None? || !FlatValid(shape, done.value.0) then None
    else
      match Attend(f, shape, done.value.0, layer, OneToken(shape, input, token), OneTokenBuffers(shape, input, sizes))
      case None => None
      case Some((after, out)) => Some((after, done.value.1 + out))
  }

  /** The first `n` tokens of the batch in `n` separate calls, outputs side by side. */
  ghost function OneByOne<F>(f: Float<F>, shape: Shape, flat: Flat, layer: nat, input: Input, sizes: Buffers,
                          n: nat): Option<(Flat, seq<F>)>
    requires InputSized(shape, input) && n <= input.tokens
    decreases n
  {
    if n == 0 then Some((flat, []))
    else NextCall(f, shape, OneByOne(f, shape, flat, layer, input, sizes, n - 1), layer, input, sizes, n - 1)
  }

  /** KV rows after the first `n` tokens of the batch. */
  ghost function Appended(shape: Shape, flat: Flat, layer: nat, input: Input, n: nat): Flat
    requires layer < |flat| && InputSized(shape, input) && n <= input.tokens
  {
    flat[layer := flat[layer] + SourceRows(shape, input.tokens, input.keys, input.values)[..n]]
  }

  lemma {:induction false} AppendedValid(shape: Shape, flat: Flat, layer: nat, input: Input, sizes: Buffers, n: nat)
    requires FlatValid(shape, flat) && Accepts(shape, flat, layer, input, sizes) && n <= input.tokens
    ensures FlatValid(shape, Appended(shape, flat, layer, input, n))
  {
    forall i | 0 <= i < n ensures RowOk(shape, SourceRow(shape, input.tokens, input.keys, input.values, i)) {
      SourceRowsFinite(shape, input.tokens, input.keys, input.values, i);
    }
  }

  lemma {:induction false} SingleAccepted(shape: Shape, flat: Flat, before: Flat, layer: nat, input: Input,
                                          sizes: Buffers, token: nat)
    requires FlatValid(shape, flat) && Accepts(shape, flat, layer, input, sizes) && token < input.tokens
    requires before == Appended(shape, flat, layer, input, token)
    ensures Accepts(shape, before, layer, OneToken(shape, input, token), OneTokenBuffers(shape, input, sizes))
  {
    var one := OneToken(shape, input, token);
    MoreRows(1, input.tokens, QueryRow(shape, input));
    MoreRows(1, input.tokens, OutputRow(shape, input));
    MoreRows(1, input.tokens, shape.KeyRow());
    MoreRows(1, input.tokens, shape.ValueRow());
    TimesOne(OutputRow(shape, input));
    SourceRowsFinite(shape, input.tokens, input.keys, input.values, token);
    RowFits(token, input.tokens, QueryRow(shape, input));
    assert AllFinite(one.queries);
  }

  lemma {:induction false} SingleRow(shape: Shape, input: Input, token: nat)
    requires InputSized(shape, input) && token < input.tokens
    ensures var one := OneToken(shape, input, token);
            SourceRows(shape, 1, one.keys, one.values) ==
              [SourceRow(shape, input.tokens, input.keys, input.values, token)]
    ensures TokenQueries(shape, OneToken(shape, input, token), 0) == TokenQueries(shape, input, token)
  {
    var one, row := OneToken(shape, input, token), SourceRow(shape, input.tokens, input.keys, input.values, token);
    TimesOne(shape.KeyRow());
    TimesOne(shape.ValueRow());
    assert SourceRow(shape, 1, one.keys, one.values, 0) == row;
  }

  lemma NextRow<T>(rows: seq<T>, n: nat)
    requires n < |rows|
    ensures rows[..n] + [rows[n]] == rows[..n + 1]
  {}

  lemma GrowsByOne<T>(stored: seq<T>, rows: seq<T>, n: nat)
    requires n < |rows|
    ensures (stored + rows)[..|stored| + n + 1] == stored + rows[..n] + [rows[n]]
    ensures stored + rows[..n + 1] == stored + rows[..n] + [rows[n]]
  {
    NextRow(rows, n);
  }

  /** The single call sees the same rows and the same queries as its token in the batch. */
  lemma {:induction false} SingleSeesTheSame<F>(f: Float<F>, shape: Shape, stored: seq<Row>, input: Input, token: nat)
    requires RowsSized(shape, stored) && InputSized(shape, input) && token < input.tokens
    ensures var rows := SourceRows(shape, input.tokens, input.keys, input.values);
            RowsSized(shape, stored + rows[..token]) &&
            Batch(f, shape, stored + rows[..token], OneToken(shape, input, token)) ==
              TokenPiece(f, shape, stored, input, token)
  {
    var rows := SourceRows(shape, input.tokens, input.keys, input.values);
    var one, before := OneToken(shape, input, token), stored + rows[..token];
    SingleRow(shape, input, token);
    GrowsByOne(stored, rows, token);
    assert RowsSized(shape, before);
    assert Seen(shape, before, one, 0) == before + [rows[token]];
    assert Seen(shape, before, one, 0) == Seen(shape, stored, input, token);
    assert TokenPiece(f, shape, before, one, 0) == TokenPiece(f, shape, stored, input, token);
    FirstOfBatch(f, shape, before, one);
  }

  lemma FirstOfBatch<F>(f: Float<F>, shape: Shape, stored: seq<Row>, input: Input)
    requires RowsSized(shape, stored) && InputSized(shape, input) && input.tokens == 1
    ensures Batch(f, shape, stored, input) == TokenPiece(f, shape, stored, input, 0)
  {
    JustOne(TokenPieces(f, shape, stored, input));
  }

  lemma JustOne<F>(pieces: Pieces<F>)
    requires |pieces| == 1
    ensures Collect(pieces, 1) == pieces[0]
  {
    assert Collect(pieces, 0) == Some([]);
    if pieces[0].Some? {
      assert [] + pieces[0].value == pieces[0].value;
    }
  }

  lemma {:induction false} SingleAppends(shape: Shape, flat: Flat, layer: nat, input: Input, sizes: Buffers, token: nat)
    requires FlatValid(shape, flat) && Accepts(shape, flat, layer, input, sizes) && token < input.tokens
    ensures var before, one := Appended(shape, flat, layer, input, token), OneToken(shape, input, token);
            AppendError(shape, before, layer, 1, one.keys, one.values) == None &&
            FlatAppend(shape, before, layer, 1, one.keys, one.values) == Appended(shape, flat, layer, input, token + 1)
  {
    var before := Appended(shape, flat, layer, input, token);
    SingleAccepted(shape, flat, before, layer, input, sizes, token);
    SingleRow(shape, input, token);
    GrowsByOne(flat[layer], SourceRows(shape, input.tokens, input.keys, input.values), token);
  }

  /** One step of the comparison: the call for token `n` yields what the batch holds for it. */
  lemma {:induction false} SingleCall<F>(f: Float<F>, shape: Shape, flat: Flat, layer: nat, input: Input,
                                         sizes: Buffers, token: nat)
    requires FlatValid(shape, flat) && Accepts(shape, flat, layer, input, sizes) && token < input.tokens
    requires FlatValid(shape, Appended(shape, flat, layer, input, token))
    ensures Attend(f, shape, Appended(shape, flat, layer, input, token), layer, OneToken(shape, input, token),
                   OneTokenBuffers(shape, input, sizes))
            == Paired(Appended(shape, flat, layer, input, token + 1), TokenPiece(f, shape, flat[layer], input, token))
  {
    SingleAccepted(shape, flat, Appended(shape, flat, layer, input, token), layer, input, sizes, token);
    SingleSeesTheSame(f, shape, flat[layer], input, token);
    SingleAppends(shape, flat, layer, input, sizes, token);
  }

  function Paired<A, B>(a: A, b: Option<B>): Option<(A, B)> {
    match b
    case None => None
    case Some(v) => Some((a, v))
  }

  lemma NothingAppended(shape: Shape, flat: Flat, layer: nat, input: Input)
    requires layer < |flat| && InputSized(shape, input)
    ensures Appended(shape, flat, layer, input, 0) == flat
  {
    assert flat[layer] + SourceRows(shape, input.tokens, input.keys, input.values)[..0] == flat[layer];
  }

  lemma {:induction false} OneMore<F>(f: Float<F>, shape: Shape, flat: Flat, layer: nat, input: Input, sizes: Buffers,
                                      n: nat, done: Option<seq<F>>)
    requires FlatValid(shape, flat) && Accepts(shape, flat, layer, input, sizes) && n < input.tokens
    ensures NextCall(f, shape, Paired(Appended(shape, flat, layer, input, n), done), layer, input, sizes, n) ==
            Paired(Appended(shape, flat, layer, input, n + 1), Join(done, TokenPiece(f, shape, flat[layer], input, n)))
  {
    if done.Some? {
      AppendedValid(shape, flat, layer, input, sizes, n);
      SingleCall(f, shape, flat, layer, input, sizes, n);
    }
  }

  /** Token by token or all at once: the same rows, the same output rows, and if one way fails
      so does the other. */
  lemma {:induction false} OneByOneMatchesBatch<F>(f: Float<F>, shape: Shape, flat: Flat, layer: nat, input: Input,
                                                sizes: Buffers, n: nat)
    requires FlatValid(shape, flat) && Accepts(shape, flat, layer, input, sizes) && n <= input.tokens
    ensures SameSoFar(f, shape, flat, layer, input, sizes, n)
  {
    SameAtStart(f, shape, flat, layer, input, sizes);
    for i := 0 to n
      invariant SameSoFar(f, shape, flat, layer, input, sizes, i)
    {
      SameOnceMore(f, shape, flat, layer, input, sizes, i);
    }
  }

  ghost predicate SameSoFar<F>(f: Float<F>, shape: Shape, flat: Flat, layer: nat, input: Input, sizes: Buffers, n: nat)
    requires FlatValid(shape, flat) && Accepts(shape, flat, layer, input, sizes) && n <= input.tokens
  {
    OneByOne(f, shape, flat, layer, input, sizes, n) ==
    Paired(Appended(shape, flat, layer, input, n), Collect(TokenPieces(f, shape, flat[layer], input), n))
  }

  lemma {:induction false} SameAtStart<F>(f: Float<F>, shape: Shape, flat: Flat, layer: nat, input: Input,
                                          sizes: Buffers)
    requires FlatValid(shape, flat) && Accepts(shape, flat, layer, input, sizes)
    ensures SameSoFar(f, shape, flat, layer, input, sizes, 0)
  {
    NothingAppended(shape, flat, layer, input);
    assert Collect(TokenPieces(f, shape, flat[layer], input), 0) == Some([]);
    assert OneByOne(f, shape, flat, layer, input, sizes, 0) == Some((flat, []));
  }

  lemma {:induction false} SameOnceMore<F>(f: Float<F>, shape: Shape, flat: Flat, layer: nat, input: Input,
                                           sizes: Buffers, n: nat)
    requires FlatValid(shape, flat) && Accepts(shape, flat, layer, input, sizes) && n < input.tokens
    requires SameSoFar(f, shape, flat, layer, input, sizes, n)
    ensures SameSoFar(f, shape, flat, layer, input, sizes, n + 1)
  {
    var pieces := TokenPieces(f, shape, flat[layer], input);
    OneMore(f, shape, flat, layer, input, sizes, n, Collect(pieces, n));
    assert Collect(pieces, n + 1) == Join(Collect(pieces, n), pieces[n]);
    assert OneByOne(f, shape, flat, layer, input, sizes, n + 1) ==
      NextCall(f, shape, OneByOne(f, shape, flat, layer, input, sizes, n), layer, input, sizes, n);
  }

  /** Batched causal attention is one-token-at-a-time attention. */
  lemma {:induction false} BatchingIsInvisible<F>(f: Float<F>, shape: Shape, flat: Flat, layer: nat, input: Input,
                                               sizes: Buffers)
    requires FlatValid(shape, flat) && Accepts(shape, flat, layer, input, sizes)
    ensures OneByOne(f, shape, flat, layer, input, sizes, input.tokens) == Attend(f, shape, flat, layer, input, sizes)
  {
    OneByOneMatchesBatch(f, shape, flat, layer, input, sizes, input.tokens);
    var rows := SourceRows(shape, input.tokens, input.keys, input.values);
    assert rows[..input.tokens] == rows;
  }

  /** Causality: what comes after a token in the batch does not change its output row. */
  lemma {:induction false} LaterTokensDoNotMatter<F>(f: Float<F>, shape: Shape, stored: seq<Row>, a: Input, b: Input,
                                                  token: nat)
    requires RowsSized(shape, stored) && InputSized(shape, a) && InputSized(shape, b) && token < a.tokens &&
             token < b.tokens
    requires a.queryHeads == b.queryHeads && TokenQueries(shape, a, token) == TokenQueries(shape, b, token)
    requires forall t: nat | t <= token ::
               SourceRow(shape, a.tokens, a.keys, a.values, t) == SourceRow(shape, b.tokens, b.keys, b.values, t)
    ensures TokenPiece(f, shape, stored, a, token) == TokenPiece(f, shape, stored, b, token)
  {
    var left, right := SourceRows(shape, a.tokens, a.keys, a.values), SourceRows(shape, b.tokens, b.keys, b.values);
    assert left[..token + 1] == right[..token + 1];
    SeenIs(shape, stored, a, token);
    SeenIs(shape, stored, b, token);
  }

  lemma SeenIs(shape: Shape, stored: seq<Row>, input: Input, token: nat)
    requires RowsSized(shape, stored) && InputSized(shape, input) && token < input.tokens
    ensures Seen(shape, stored, input, token) ==
            stored + SourceRows(shape, input.tokens, input.keys, input.values)[..token + 1]
  {}
}
