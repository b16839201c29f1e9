/** The attention kernel as the loops that fill its score and output buffers. */
module AttentionKernel {
  import opened Common
  import opened KvLayout
  import opened PagedKv
  import opened Attention

  /** What the loops read: the pages of one layer, borrowed from the cache, that hold `base`
      tokens, and the batch. */
  datatype View = View(shape: Shape, table: PageTable, base: nat, input: Input) {
    ghost predicate Valid() {
      InputSized(shape, input) && LayerValid(shape, table, base)
    }

    /** The stored rows followed by those of the batch. */
    ghost function Rows(): (r: seq<Row>)
      requires Valid()
      ensures RowsSized(shape, r) && |r| == base + input.tokens
    {
      LayerRows(shape, table, base) + SourceRows(shape, input.tokens, input.keys, input.values)
    }
  }

  method SourceKey(v: View, source: nat, head: nat) returns (key: seq<F32>)
    requires v.Valid() && source < v.base + v.input.tokens && head < v.shape.heads
    ensures key == HeadKey(v.shape, v.Rows()[source], head)
  {
    if source < v.base {
      key := KeyIn(v.shape, v.table, source, head);
    } else {
      SourceHead(v.shape, v.input.tokens, v.input.keys, v.input.values, source - v.base, head);
      var start := ((source - v.base) * v.shape.heads + head) * v.shape.keyDim;
      key := v.input.keys[start..start + v.shape.keyDim];
    }
  }

  method SourceValue(v: View, source: nat, head: nat) returns (value: seq<F32>)
    requires v.Valid() && source < v.base + v.input.tokens && head < v.shape.heads
    ensures value == HeadValue(v.shape, v.Rows()[source], head)
  {
    if source < v.base {
      value := ValueIn(v.shape, v.table, source, head);
    } else {
      SourceHead(v.shape, v.input.tokens, v.input.keys, v.input.values, source - v.base, head);
      var start := ((source - v.base) * v.shape.heads + head) * v.shape.valueDim;
      value := v.input.values[start..start + v.shape.valueDim];
    }
  }

  method DotProduct<F>(f: Float<F>, query: seq<F32>, key: seq<F32>) returns (dot: F)
    requires |query| == |key|
    ensures dot == Dot(f, query, key, |query|)
  {
    dot := f.zero;
    for i := 0 to |query|
      invariant dot == Dot(f, query, key, i)
    {
      dot := f.add(dot, f.mul(f.load(query[i]), f.load(key[i])));
    }
  }

  method FillScores<F>(f: Float<F>, v: View, allowed: nat, head: nat, query: seq<F32>, scores: array<F>)
    returns (ok: bool)
    requires v.Valid() && allowed <= v.base + v.input.tokens && allowed <= scores.Length
    requires head < v.shape.heads && |query| == v.shape.keyDim
    modifies scores
    ensures var spec := Scores(f, v.shape, v.Rows()[..allowed], head, query);
            ok == AllUsable(f, spec) && (ok ==> scores[..allowed] == spec)
  {
    ghost var seen := v.Rows()[..allowed];
    ghost var spec := Scores(f, v.shape, seen, head, query);
    for t := 0 to allowed
      invariant forall i | 0 <= i < t :: scores[i] == spec[i] && f.finite(spec[i])
    {
      var key := SourceKey(v, t, head);
      var dot := DotProduct(f, query, key);
      scores[t] := f.mul(dot, f.scale(v.shape.keyDim));
      assert seen[t] == v.Rows()[t];
      assert scores[t] == spec[t];
      if !f.finite(scores[t]) {
        return false;
      }
    }
    ok := true;
  }

  method Softmax<F>(f: Float<F>, scores: array<F>, allowed: nat) returns (denominator: F)
    requires allowed <= scores.Length
    modifies scores
    ensures scores[..allowed] == Weights(f, old(scores[..allowed]))
    ensures denominator == Total(f, scores[..allowed], allowed)
  {
    ghost var before := scores[..allowed];
    var maximum := f.lowest;
    for t := 0 to allowed
      invariant maximum == Maximum(f, before, t)
    {
      maximum := f.max(maximum, scores[t]);
    }
    ghost var weights := Weights(f, before);
    denominator := f.zero;
    for t := 0 to allowed
      invariant forall i | 0 <= i < t :: scores[i] == weights[i]
      invariant forall i | t <= i < allowed :: scores[i] == before[i]
      invariant denominator == Total(f, weights, t)
    {
      scores[t] := f.exp(f.sub(scores[t], maximum));
      assert scores[t] == weights[t];
      denominator := f.add(denominator, scores[t]);
    }
    assert scores[..allowed] == weights;
  }

  /** One output lane: the weighted sum of that lane over all rows seen. */
  method AttendLane<F>(f: Float<F>, v: View, head: nat, weights: seq<F>, denominator: F, lane: nat)
    returns (attended: F)
    requires v.Valid() && |weights| <= v.base + v.input.tokens
    requires head < v.shape.heads && lane < v.shape.valueDim && denominator == Total(f, weights, |weights|)
    ensures attended == Lane(f, v.shape, v.Rows()[..|weights|], head, weights, lane, |weights|)
  {
    ghost var seen := v.Rows()[..|weights|];
    attended := f.zero;
    for t := 0 to |weights|
      invariant attended == Lane(f, v.shape, seen, head, weights, lane, t)
    {
      attended := AddShare(f, v, head, weights, denominator, lane, t, attended, seen);
    }
  }

  method AddShare<F>(f: Float<F>, v: View, head: nat, weights: seq<F>, denominator: F, lane: nat, t: nat, sum: F,
                  ghost seen: seq<Row>)
    returns (next: F)
    requires v.Valid() && t < |weights| <= v.base + v.input.tokens && seen == v.Rows()[..|weights|]
    requires head < v.shape.heads && lane < v.shape.valueDim && denominator == Total(f, weights, |weights|)
    requires sum == Lane(f, v.shape, seen, head, weights, lane, t)
    ensures next == Lane(f, v.shape, seen, head, weights, lane, t + 1)
  {
    var value := SourceValue(v, t, head);
    LaneNext(f, v.shape, seen, head, weights, lane, t);
    next := f.add(sum, f.mul(f.div(weights[t], denominator), f.load(value[lane])));
  }

  method AttendLanes<F>(f: Float<F>, v: View, head: nat, weights: seq<F>, denominator: F)
    returns (lanes: Option<seq<F>>)
    requires v.Valid() && |weights| <= v.base + v.input.tokens
    requires head < v.shape.heads && denominator == Total(f, weights, |weights|)
    ensures var spec := Lanes(f, v.shape, v.Rows()[..|weights|], head, weights);
            lanes == if AllUsable(f, spec) then Some(spec) else None
  {
    ghost var spec := Lanes(f, v.shape, v.Rows()[..|weights|], head, weights);
    var written: seq<F> := [];
    for lane := 0 to v.shape.valueDim
      invariant |written| == lane && forall i | 0 <= i < lane :: written[i] == spec[i] && f.finite(spec[i])
    {
      var attended := AttendLane(f, v, head, weights, denominator, lane);
      assert attended == spec[lane];
      if !f.finite(attended) {
        return None;
      }
      written := written + [attended];
    }
    assert written == spec;
    lanes := Some(written);
  }

  /** Scores, softmax and weighted values of one query head. */
  method AttendHead<F>(f: Float<F>, v: View, allowed: nat, head: nat, query: seq<F32>, scores: array<F>)
    returns (lanes: Option<seq<F>>)
    requires v.Valid() && allowed <= v.base + v.input.tokens && allowed <= scores.Length
    requires head < v.shape.heads && |query| == v.shape.keyDim
    modifies scores
    ensures lanes == HeadContext(f, v.shape, v.Rows()[..allowed], head, query)
  {
    var ok := FillScores(f, v, allowed, head, query, scores);
    if !ok {
      return None;
    }
    var denominator := Softmax(f, scores, allowed);
    if !f.finite(denominator) {
      return None;
    }
    lanes := AttendLanes(f, v, head, scores[..allowed], denominator);
  }

  /** The slice of the batch that holds one head of one token. */
  method LocateQuery(shape: Shape, input: Input, token: nat, head: nat) returns (query: seq<F32>)
    requires InputSized(shape, input) && token < input.tokens && head < input.queryHeads
    ensures query == QueryOf(shape, input.queryHeads, TokenQueries(shape, input, token), head)
  {
    HeadOffset(input.queryHeads, shape.keyDim, token, head);
    RowFits(token, input.tokens, QueryRow(shape, input));
    RowFits(head, input.queryHeads, shape.keyDim);
    SliceOfSlice(input.queries, Times(token, QueryRow(shape, input)), QueryRow(shape, input), Times(head, shape.keyDim),
                 shape.keyDim);
    var start := (token * input.queryHeads + head) * shape.keyDim;
    query := input.queries[start..start + shape.keyDim];
  }

  method LocateKvHead(shape: Shape, queryHeads: nat, head: nat) returns (kvHead: nat)
    requires Grouped(shape, queryHeads) && head < queryHeads
    ensures kvHead == KvHead(shape, queryHeads, head)
  {
    KvHeadIs(shape, queryHeads, head);
    var queriesPerKvHead := queryHeads / shape.heads;
    kvHead := head / queriesPerKvHead;
  }

  /** Where the lanes of one head go: right behind everything written before. */
  method LocateLanes(shape: Shape, input: Input, token: nat, head: nat) returns (start: nat)
    requires token < input.tokens && head < input.queryHeads
    ensures start == Times(token, OutputRow(shape, input)) + Times(head, shape.valueDim)
  {
    HeadOffset(input.queryHeads, shape.valueDim, token, head);
    start := (token * input.queryHeads + head) * shape.valueDim;
  }

  /** What one token of the batch sees: the rows up to its own, and its queries. */
  ghost predicate Sees(v: View, token: nat, seen: seq<Row>, queries: seq<F32>) {
    v.Valid() && token < v.input.tokens && RowsSized(v.shape, seen) && seen == v.Rows()[..v.base + token + 1] &&
    queries == TokenQueries(v.shape, v.input, token) && |queries| == Times(v.input.queryHeads, v.shape.keyDim)
  }

  /** One iteration of the head loop. */
  method AttendQueryHead<F>(f: Float<F>, v: View, token: nat, head: nat, scores: array<F>, ghost seen: seq<Row>,
                            ghost queries: seq<F32>) returns (lanes: Option<seq<F>>)
    requires Sees(v, token, seen, queries) && head < v.input.queryHeads && v.base + v.input.tokens <= scores.Length
    modifies scores
    ensures lanes == HeadPiece(f, v.shape, seen, v.input.queryHeads, queries, head)
  {
    var query := LocateQuery(v.shape, v.input, token, head);
    var kvHead := LocateKvHead(v.shape, v.input.queryHeads, head);
    lanes := AttendHead(f, v, v.base + token + 1, kvHead, query, scores);
  }

  lemma Collected<F>(pieces: Pieces<F>, n: nat, done: seq<F>)
    requires n < |pieces| && Collect(pieces, n) == Some(done)
    ensures Collect(pieces, n + 1) == Join(Some(done), pieces[n])
  {}

  /** One more head, behind everything written before: the scratch output is the sequence of values
      written so far, and the asserted equation says that the source's destination index is its end. */
  method NextHead<F>(f: Float<F>, v: View, token: nat, head: nat, scores: array<F>, row: seq<F>, ghost seen: seq<Row>,
                     ghost queries: seq<F32>) returns (next: Option<seq<F>>)
    requires Sees(v, token, seen, queries) && head < v.input.queryHeads && v.base + v.input.tokens <= scores.Length
    requires |row| == Times(head, v.shape.valueDim)
    modifies scores
    ensures next == Join(Some(row), HeadPiece(f, v.shape, seen, v.input.queryHeads, queries, head))
    ensures next.Some? ==> |next.value| == Times(head + 1, v.shape.valueDim)
  {
    var start := LocateLanes(v.shape, v.input, token, head);
    assert start == Times(token, OutputRow(v.shape, v.input)) + |row|;
    var lanes := AttendQueryHead(f, v, token, head, scores, seen, queries);
    next := Join(Some(row), lanes);
  }

  ghost predicate PiecesAre<F>(f: Float<F>, v: View, token: nat, seen: seq<Row>, queries: seq<F32>, pieces: Pieces<F>) {
    Sees(v, token, seen, queries) && |pieces| == v.input.queryHeads &&
    forall h: nat | h < |pieces| :: PieceIs(f, v, token, seen, queries, pieces, h)
  }

  ghost predicate PieceIs<F>(f: Float<F>, v: View, token: nat, seen: seq<Row>, queries: seq<F32>, pieces: Pieces<F>,
                             h: nat)
    requires Sees(v, token, seen, queries) && h < |pieces| == v.input.queryHeads
  {
    pieces[h] == HeadPiece(f, v.shape, seen, v.input.queryHeads, queries, h)
  }

  method AttendHeads<F>(f: Float<F>, v: View, token: nat, scores: array<F>, ghost seen: seq<Row>,
                        ghost queries: seq<F32>, ghost pieces: Pieces<F>) returns (row: Option<seq<F>>)
    requires PiecesAre(f, v, token, seen, queries, pieces) && v.base + v.input.tokens <= scores.Length
    modifies scores
    ensures row == Collect(pieces, v.input.queryHeads)
  {
    var output: seq<F> := [];
    for head := 0 to v.input.queryHeads
      invariant |output| == Times(head, v.shape.valueDim) && Collect(pieces, head) == Some(output)
    {
      Collected(pieces, head, output);
      assert PieceIs(f, v, token, seen, queries, pieces, head);
      row := NextHead(f, v, token, head, scores, output, seen, queries);
      if row.None? {
        CollectFailsEarly(pieces, head + 1, v.input.queryHeads);
        return;
      }
      output := row.value;
    }
    row := Some(output);
  }

  method AttendToken<F>(f: Float<F>, v: View, token: nat, scores: array<F>, scratch: seq<F>)
    returns (written: Option<seq<F>>)
    requires v.Valid() && token < v.input.tokens && v.base + v.input.tokens <= scores.Length
    requires |scratch| == Times(token, OutputRow(v.shape, v.input))
    requires Collect(TokenPieces(f, v.shape, LayerRows(v.shape, v.table, v.base), v.input), token) == Some(scratch)
    modifies scores
    ensures written == Collect(TokenPieces(f, v.shape, LayerRows(v.shape, v.table, v.base), v.input), token + 1)
    ensures written.Some? ==> |written.value| == Times(token + 1, OutputRow(v.shape, v.input))
  {
    ghost var seen := Seen(v.shape, LayerRows(v.shape, v.table, v.base), v.input, token);
    ghost var queries := TokenQueries(v.shape, v.input, token);
    ghost var pieces := HeadPieces(f, v.shape, seen, v.input.queryHeads, queries);
    assert forall h: nat | h < |pieces| :: PieceIs(f, v, token, seen, queries, pieces, h);
    var row := AttendHeads(f, v, token, scores, seen, queries, pieces);
    written := if row.Some? then Some(scratch + row.value) else None;
  }

  /** The token loop: fills the scratch output row by row. */
  method AttendTokens<F>(f: Float<F>, v: View, scores: array<F>) returns (written: Option<seq<F>>)
    requires v.Valid() && v.base + v.input.tokens <= scores.Length
    modifies scores
    ensures written == Batch(f, v.shape, LayerRows(v.shape, v.table, v.base), v.input)
  {
    ghost var pieces := TokenPieces(f, v.shape, LayerRows(v.shape, v.table, v.base), v.input);
    var output: seq<F> := [];
    for token := 0 to v.input.tokens
      invariant |output| == Times(token, OutputRow(v.shape, v.input)) && Collect(pieces, token) == Some(output)
    {
      written := AttendToken(f, v, token, scores, output);
      if written.None? {
        CollectFailsEarly(pieces, token + 1, v.input.tokens);
        return;
      }
      output := written.value;
    }
    written := Some(output);
  }

  /** The kernel: on failure nothing a caller can read has changed but scratch; on success the
      output and the cache are those of the specification. `scratch` is the length of the scratch
      output, `memory` says whether the cache may allocate. */
  method CausalGqaAttention<F>(f: Float<F>, cache: PagedKvCache, layer: nat, input: Input, output: array<F>,
                            scores: array<F>, scratch: nat, memory: bool) returns (ok: bool)
    requires cache.Valid() && output != scores
    modifies cache, output, scores
    ensures cache.Valid()
    ensures !ok ==> cache.Rows() == old(cache.Rows()) && output[..] == old(output[..])
    ensures var sizes := Buffers(output.Length, scores.Length, scratch);
            ok ==> Attend(f, cache.shape, old(cache.Rows()), layer, input, sizes) == Some((cache.Rows(), output[..]))
    ensures var sizes := Buffers(output.Length, scores.Length, scratch);
            memory && PageFits(cache.shape) && !ok ==>
              Attend(f, cache.shape, old(cache.Rows()), layer, input, sizes) == None
  {
    var shape := cache.shape;
    if layer >= shape.layers {
      return false;
    }
    var base := cache.lengths[layer];
    ghost var flat := cache.Rows();
    ok := CheckCall(cache, layer, input, Buffers(output.Length, scores.Length, scratch));
    if !ok {
      return;
    }
    var written := AttendTokens(f, View(shape, cache.pages[layer], base, input), scores);
    if written.None? {
      return false;
    }
    var failure := cache.AppendTokens(layer, input.tokens, input.keys, input.values, memory);
    if failure.Some? {
      return false;
    }
    CopyOut(written.value, output);
    ok := true;
  }

  method CopyOut<F>(written: seq<F>, output: array<F>)
    requires output.Length == |written|
    modifies output
    ensures output[..] == written
  {
    for i := 0 to output.Length
      invariant forall j | 0 <= j < i :: output[j] == written[j]
    {
      output[i] := written[i];
    }
  }

  method CheckCall(cache: PagedKvCache, layer: nat, input: Input, sizes: Buffers) returns (ok: bool)
    requires cache.Valid() && layer < cache.shape.layers
    ensures ok == Accepts(cache.shape, cache.Rows(), layer, input, sizes)
  {
    var shape, stored := cache.shape, cache.lengths[layer];
    if input.tokens == 0 || !Grouped(shape, input.queryHeads) {
      return false;
    }
    if Times(input.tokens, QueryRow(shape, input)) > USIZE_MAX || Times(input.tokens, shape.KeyRow()) > USIZE_MAX ||
       Times(input.tokens, shape.ValueRow()) > USIZE_MAX || Times(input.tokens, OutputRow(shape, input)) > USIZE_MAX {
      return false;
    }
    if !InputSized(shape, input) || sizes.output != Times(input.tokens, OutputRow(shape, input)) {
      return false;
    }
    if !AllFinite(input.queries) || !AllFinite(input.keys) || !AllFinite(input.values) {
      return false;
    }
    if stored + input.tokens > USIZE_MAX || stored + input.tokens > shape.capacity {
      return false;
    }
    ok := stored + input.tokens <= sizes.scores && sizes.output <= sizes.scratch;
  }
}
