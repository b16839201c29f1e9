/** Exporting the paged cache to snapshot bytes and restoring it from them, as written: nested
    loops over layers, tokens and heads, and a cursor that only moves forward. */
module KvSnapshotIo {
  import opened Common
  import opened KvLayout
  import opened PagedKv
  import opened KvSnapshot

  datatype SnapshotError =
    | ZeroSnapshotLimit
    | SnapshotTooLarge
    | SnapshotTruncated
    | SnapshotChecksum
    | SnapshotMagic
    | SnapshotVersion
    | SnapshotBinding
    | SnapshotConfiguration
    | SnapshotLayerLength
    | SnapshotTrailingBytes
    | SnapshotOverflow
    | InconsistentKvLength
    | Refused(error: KvError)

  // --- export --------------------------------------------------------------------------

  lemma {:induction false} IntsConcat(a: seq<nat>, b: seq<nat>, width: nat)
    ensures Ints(a + b, width) == Ints(a, width) + Ints(b, width)
  {
    if a == [] {
      assert a + b == b;
    } else {
      IntsConcat(a[1..], b, width);
      assert (a + b)[1..] == a[1..] + b;
      Assoc(Le(a[0], width), Ints(a[1..], width), Ints(b, width));
    }
  }

  lemma HeadSuffix(shape: Shape, head: nat)
    requires head <= shape.heads
    ensures Times(head, shape.keyDim) + Times(shape.heads - head, shape.keyDim) == shape.KeyRow()
    ensures Times(head, shape.valueDim) + Times(shape.heads - head, shape.valueDim) == shape.ValueRow()
  {
    TimesAdd(head, shape.heads - head, shape.keyDim);
    TimesAdd(head, shape.heads - head, shape.valueDim);
  }

  /** The part of a row that belongs to heads `head ..`. */
  ghost function Tail(shape: Shape, row: Row, head: nat): (r: Row)
    requires RowSized(shape, row) && head <= shape.heads
    ensures RowOfHeads(shape, shape.heads - head, r)
  {
    HeadSuffix(shape, head);
    Row(row.keys[Times(head, shape.keyDim)..], row.values[Times(head, shape.valueDim)..])
  }

  ghost function TailBytes(shape: Shape, row: Row, head: nat): seq<byte>
    requires RowSized(shape, row) && head <= shape.heads
  {
    Words(Lanes(shape, shape.heads - head, Tail(shape, row, head)))
  }

  lemma TailSplit(shape: Shape, row: Row, head: nat)
    requires RowSized(shape, row) && head < shape.heads
    ensures Tail(shape, row, head).keys == HeadKey(shape, row, head) + Tail(shape, row, head + 1).keys
    ensures Tail(shape, row, head).values == HeadValue(shape, row, head) + Tail(shape, row, head + 1).values
  {
    HeadSuffix(shape, head);
    HeadFits(shape, head);
  }

  lemma TailStep(shape: Shape, row: Row, head: nat)
    requires RowSized(shape, row) && head < shape.heads
    ensures TailBytes(shape, row, head)
         == HeadBytes(shape, row, head) + TailBytes(shape, row, head + 1)
  {
    TailSplit(shape, row, head);
    WordsOfCons(shape, shape.heads - head - 1, HeadKey(shape, row, head), HeadValue(shape, row, head),
                Tail(shape, row, head + 1));
  }

  lemma WordsConcat(a: seq<F32>, b: seq<F32>)
    ensures Words(a + b) == Words(a) + Words(b)
  {
    IntsConcat(a, b, 4);
  }

  lemma WordsOfCons(shape: Shape, n: nat, key: seq<F32>, value: seq<F32>, next: Row)
    requires |key| == shape.keyDim && |value| == shape.valueDim && RowOfHeads(shape, n, next)
    ensures Words(Lanes(shape, n + 1, Row(key + next.keys, value + next.values)))
         == Words(key) + Words(value) + Words(Lanes(shape, n, next))
  {
    LanesCons(shape, n, key, value, next);
    WordsConcat(key + value, Lanes(shape, n, next));
    WordsConcat(key, value);
  }

  lemma TailBytesStep(shape: Shape, row: Row, head: nat, output: seq<byte>)
    requires RowSized(shape, row) && head < shape.heads
    ensures output + TailBytes(shape, row, head)
         == output + HeadBytes(shape, row, head) + TailBytes(shape, row, head + 1)
  {
    TailStep(shape, row, head);
    Assoc(output, HeadBytes(shape, row, head), TailBytes(shape, row, head + 1));
  }

  lemma TailBytesEnds(shape: Shape, row: Row, output: seq<byte>)
    requires RowSized(shape, row)
    ensures [] + TailBytes(shape, row, 0) == Words(Lanes(shape, shape.heads, row))
    ensures output + TailBytes(shape, row, shape.heads) == output
  {
    assert Tail(shape, row, 0) == row;
  }

  /** The lanes of one head. */
  method ExportHead(cache: PagedKvCache, layer: nat, token: nat, head: nat) returns (bytes: seq<byte>)
    requires cache.Valid() && layer < cache.shape.layers && token < |cache.Rows()[layer]| && head < cache.shape.heads
    ensures RowSized(cache.shape, cache.Rows()[layer][token])
    ensures bytes == HeadBytes(cache.shape, cache.Rows()[layer][token], head)
  {
    ghost var row := cache.Rows()[layer][token];
    assert RowOk(cache.shape, row);
    var key := cache.Key(layer, token, head);
    var value := cache.Value(layer, token, head);
    bytes := Words(key.value) + Words(value.value);
  }

  ghost function HeadBytes(shape: Shape, row: Row, head: nat): seq<byte>
    requires RowSized(shape, row) && head < shape.heads
  {
    HeadFits(shape, head);
    Words(HeadKey(shape, row, head)) + Words(HeadValue(shape, row, head))
  }

  /** One token's lanes, head by head. */
  method ExportToken(cache: PagedKvCache, layer: nat, token: nat) returns (output: seq<byte>)
    requires cache.Valid() && layer < cache.shape.layers && token < |cache.Rows()[layer]|
    ensures output == Words(Lanes(cache.shape, cache.shape.heads, cache.Rows()[layer][token]))
  {
    ghost var row := TokenRow(cache.shape, cache.Rows(), layer, token);
    output := [];
    TailBytesEnds(cache.shape, row, output);
    for head := 0 to cache.shape.heads
      invariant output + TailBytes(cache.shape, row, head) == Words(Lanes(cache.shape, cache.shape.heads, row))
    {
      output := ExportNext(cache, layer, token, head, row, output);
    }
    TailBytesEnds(cache.shape, row, output);
  }

  method ExportNext(cache: PagedKvCache, layer: nat, token: nat, head: nat, ghost row: Row, output: seq<byte>)
    returns (next: seq<byte>)
    requires cache.Valid() && layer < cache.shape.layers && token < |cache.Rows()[layer]| && head < cache.shape.heads
    requires row == cache.Rows()[layer][token] && RowSized(cache.shape, row)
    ensures next + TailBytes(cache.shape, row, head + 1) == output + TailBytes(cache.shape, row, head)
  {
    var bytes := ExportHead(cache, layer, token, head);
    TailBytesStep(cache.shape, row, head, output);
    next := output + bytes;
  }

  ghost function TokenRow(shape: Shape, flat: Flat, layer: nat, token: nat): (row: Row)
    requires FlatValid(shape, flat) && layer < shape.layers && token < |flat[layer]|
    ensures row == flat[layer][token] && RowSized(shape, row)
  {
    assert RowOk(shape, flat[layer][token]);
    flat[layer][token]
  }

  lemma RowsSuffix(shape: Shape, rows: seq<Row>, token: nat, before: seq<byte>)
    requires RowsSized(shape, rows) && token < |rows|
    ensures before + RowsBytes(shape, rows[token..])
         == before + Words(Lanes(shape, shape.heads, rows[token])) + RowsBytes(shape, rows[token + 1..])
  {
    RowsBytesFrom(shape, rows, token);
    Assoc(before, Words(Lanes(shape, shape.heads, rows[token])), RowsBytes(shape, rows[token + 1..]));
  }

  lemma RowsBytesFrom(shape: Shape, rows: seq<Row>, token: nat)
    requires RowsSized(shape, rows) && token < |rows|
    ensures RowsBytes(shape, rows[token..]) ==
            Words(Lanes(shape, shape.heads, rows[token])) + RowsBytes(shape, rows[token + 1..])
  {
    assert rows[token..][1..] == rows[token + 1..];
  }

  method ExportLayer(cache: PagedKvCache, layer: nat) returns (output: seq<byte>)
    requires cache.Valid() && layer < cache.shape.layers
    ensures RowsSized(cache.shape, cache.Rows()[layer]) && output == RowsBytes(cache.shape, cache.Rows()[layer])
  {
    var shape := cache.shape;
    ghost var rows := cache.Rows()[layer];
    FlatValidRows(shape, cache.Rows());
    output := [];
    ghost var all := RowsBytes(shape, rows);
    assert rows[0..] == rows;
    for token := 0 to cache.lengths[layer]
      invariant output + RowsBytes(shape, rows[token..]) == all
    {
      var lanes := ExportToken(cache, layer, token);
      RowsSuffix(shape, rows, token, output);
      output := output + lanes;
    }
  }

  method PayloadBytes(cache: PagedKvCache) returns (payload: nat)
    requires cache.Valid()
    ensures payload == Times(TotalRows(cache.Rows()), RowBytes(cache.shape))
  {
    var shape := cache.shape;
    ghost var flat := cache.Rows();
    payload := 0;
    for layer := 0 to shape.layers
      invariant payload + Times(TotalRows(flat[layer..]), RowBytes(shape)) == Times(TotalRows(flat), RowBytes(shape))
    {
      assert flat[layer..][1..] == flat[layer + 1..];
      TimesAdd(|flat[layer]|, TotalRows(flat[layer + 1..]), RowBytes(shape));
      payload := payload + Times(cache.lengths[layer], RowBytes(shape));
    }
  }

  method ExportLayers(cache: PagedKvCache) returns (output: seq<byte>)
    requires cache.Valid()
    ensures LayersSized(cache.shape, cache.Rows()) && output == LayersBytes(cache.shape, cache.Rows())
  {
    var shape := cache.shape;
    ghost var flat := cache.Rows();
    FlatValidRows(shape, flat);
    output := [];
    for layer := 0 to shape.layers
      invariant output + LayersBytes(shape, flat[layer..]) == LayersBytes(shape, flat)
    {
      var rows := ExportLayer(cache, layer);
      LayersSuffix(shape, flat, layer, output);
      output := output + rows;
    }
  }

  lemma LayersSuffix(shape: Shape, flat: Flat, layer: nat, before: seq<byte>)
    requires LayersSized(shape, flat) && layer < |flat|
    ensures before + LayersBytes(shape, flat[layer..]) ==
            before + RowsBytes(shape, flat[layer]) + LayersBytes(shape, flat[layer + 1..])
  {
    LayersBytesFrom(shape, flat, layer);
    Assoc(before, RowsBytes(shape, flat[layer]), LayersBytes(shape, flat[layer + 1..]));
  }

  lemma LayersBytesFrom(shape: Shape, flat: Flat, layer: nat)
    requires LayersSized(shape, flat) && layer < |flat|
    ensures LayersBytes(shape, flat[layer..]) == RowsBytes(shape, flat[layer]) + LayersBytes(shape, flat[layer + 1..])
  {
    assert flat[layer..][1..] == flat[layer + 1..];
  }

  /** Succeeds exactly when the snapshot fits the limit and the lane count the machine word. */
  method ExportSnapshot(cache: PagedKvCache, sha: Sha256, binding: Digest, maximum: nat)
    returns (r: Result<seq<byte>, SnapshotError>)
    requires cache.Valid() && maximum <= USIZE_MAX
    ensures LayersSized(cache.shape, cache.Rows())
    ensures r.Ok? <==> LaneCount(cache.shape) <= USIZE_MAX && SnapshotBytes(cache.shape, cache.Rows()) <= maximum
    ensures r.Ok? ==> r.value == Encode(sha, cache.shape, binding, cache.Rows())
  {
    var shape := cache.shape;
    FlatValidRows(shape, cache.Rows());
    if maximum == 0 {
      return Err(ZeroSnapshotLimit);
    }
    if LaneCount(shape) > USIZE_MAX {
      return Err(SnapshotOverflow);
    }
    var payload := PayloadBytes(cache);
    var size := 8 + 4 + 32 + 6 * 8 + 8 * shape.layers + 32 + payload;
    if size > USIZE_MAX {
      return Err(SnapshotOverflow);
    }
    if size > maximum {
      return Err(SnapshotTooLarge);
    }
    var rows := ExportLayers(cache);
    assert cache.lengths == Lengths(cache.Rows());
    var output := Header(shape, binding) + (Ints(cache.lengths, 8) + rows);
    r := Ok(output + sha(output));
  }

  // --- restore -------------------------------------------------------------------------

  /** `done` was read already; `tail` is what a decoder makes of the rest. */
  ghost function Resume<T>(done: seq<T>, tail: Option<(seq<T>, seq<byte>)>): Option<(seq<T>, seq<byte>)> {
    match tail
    case None => None
    case Some((more, rest)) => Some((done + more, rest))
  }

  lemma ResumeNone<T>(tail: Option<(seq<T>, seq<byte>)>)
    ensures Resume([], tail) == tail
  {
    if tail.Some? {
      assert [] + tail.value.0 == tail.value.0;
    }
  }

  lemma ResumeTwice<T>(a: seq<T>, b: seq<T>, tail: Option<(seq<T>, seq<byte>)>)
    ensures Resume(a, Resume(b, tail)) == Resume(a + b, tail)
  {
    if tail.Some? {
      assert a + (b + tail.value.0) == a + b + tail.value.0;
    }
  }

  lemma PrefixConcat(a: seq<byte>, b: seq<byte>, bytes: seq<byte>)
    ensures a + b <= bytes <==> a <= bytes && b <= bytes[|a|..]
    ensures a + b <= bytes ==> bytes[|a + b|..] == bytes[|a|..][|b|..]
  {
    if a + b <= bytes {
      assert bytes[..|a|] == (a + b)[..|a|] == a;
      assert bytes[|a|..][..|b|] == (a + b)[|a|..] == b;
    }
    if a <= bytes && b <= bytes[|a|..] {
      assert bytes[..|a| + |b|] == a + b;
    }
  }

  /** Reading a little-endian field and comparing it is comparing its canonical bytes. */
  lemma FieldMatches(n: nat, width: nat, bytes: seq<byte>)
    requires n < Pow256(width)
    ensures Le(n, width) <= bytes <==> |bytes| >= width && FromLe(bytes[..width]) == n
  {
    LeRoundTrip(n, width);
    if Le(n, width) <= bytes {
      assert bytes[..width] == Le(n, width);
    }
    if |bytes| >= width {
      FromLeRoundTrip(bytes[..width]);
    }
  }

  method CheckParameters(shape: Shape, bytes: seq<byte>) returns (rest: Result<seq<byte>, SnapshotError>)
    requires forall i | 0 <= i < 6 :: shape.Parameters()[i] <= U64_MAX
    ensures rest.Ok? <==> Ints(shape.Parameters(), 8) <= bytes
    ensures rest.Ok? ==> rest.value == bytes[|Ints(shape.Parameters(), 8)|..]
  {
    var expected := shape.Parameters();
    var cursor := bytes;
    Pow256Values();
    for i := 0 to 6
      invariant Ints(expected[i..], 8) <= cursor <==> Ints(expected, 8) <= bytes
      invariant Ints(expected, 8) <= bytes ==> cursor[|Ints(expected[i..], 8)|..] == bytes[|Ints(expected, 8)|..]
    {
      assert expected[i..][1..] == expected[i + 1..];
      PrefixConcat(Le(expected[i], 8), Ints(expected[i + 1..], 8), cursor);
      FieldMatches(expected[i], 8, cursor);
      if |cursor| < 8 {
        return Err(SnapshotTruncated);
      }
      if FromLe(cursor[..8]) != expected[i] {
        return Err(SnapshotConfiguration);
      }
      cursor := cursor[8..];
    }
    rest := Ok(cursor);
  }

  /** The fixed fields, in file order; accepted exactly when the body starts with the header. */
  method CheckHeader(shape: Shape, binding: Digest, body: seq<byte>) returns (rest: Result<seq<byte>, SnapshotError>)
    requires forall i | 0 <= i < 6 :: shape.Parameters()[i] <= U64_MAX
    ensures rest.Ok? <==> Header(shape, binding) <= body
    ensures rest.Ok? ==> rest.value == body[|Header(shape, binding)|..]
  {
    ghost var parameters := Ints(shape.Parameters(), 8);
    PrefixConcat(MAGIC + Le(VERSION, 4) + binding, parameters, body);
    PrefixConcat(MAGIC + Le(VERSION, 4), binding, body);
    PrefixConcat(MAGIC, Le(VERSION, 4), body);
    if |body| < 8 {
      return Err(SnapshotTruncated);
    }
    if body[..8] != MAGIC {
      return Err(SnapshotMagic);
    }
    var cursor := body[8..];
    Pow256Values();
    FieldMatches(VERSION, 4, cursor);
    if |cursor| < 4 {
      return Err(SnapshotTruncated);
    }
    if FromLe(cursor[..4]) != VERSION {
      return Err(SnapshotVersion);
    }
    cursor := cursor[4..];
    if |cursor| < 32 {
      return Err(SnapshotTruncated);
    }
    if cursor[..32] != binding {
      return Err(SnapshotBinding);
    }
    rest := CheckParameters(shape, cursor[32..]);
  }

  lemma TakeIntsStep(bytes: seq<byte>, n: nat, width: nat, done: seq<nat>)
    requires n > 0 && |bytes| >= width
    ensures Resume(done, TakeInts(bytes, n, width)) ==
            Resume(done + [FromLe(bytes[..width])], TakeInts(bytes[width..], n - 1, width))
  {
    var tail := TakeInts(bytes[width..], n - 1, width);
    assert TakeInts(bytes, n, width) == Resume([FromLe(bytes[..width])], tail);
    ResumeTwice(done, [FromLe(bytes[..width])], tail);
  }

  predicate LengthsFit(shape: Shape, lengths: seq<nat>) {
    forall l | 0 <= l < |lengths| :: lengths[l] <= shape.capacity
  }

  /** The per-layer token counts, each checked against the capacity as it is read. */
  method ReadLengths(shape: Shape, bytes: seq<byte>) returns (lengths: seq<nat>, rest: Result<seq<byte>, SnapshotError>)
    ensures rest.Ok? ==> TakeInts(bytes, shape.layers, 8) == Some((lengths, rest.value)) && LengthsFit(shape, lengths)
    ensures TakeInts(bytes, shape.layers, 8).Some? && LengthsFit(shape, TakeInts(bytes, shape.layers, 8).value.0) ==>
              rest.Ok?
  {
    lengths := [];
    var cursor := bytes;
    ResumeNone(TakeInts(bytes, shape.layers, 8));
    for layer := 0 to shape.layers
      invariant |lengths| == layer && LengthsFit(shape, lengths)
      invariant TakeInts(bytes, shape.layers, 8) == Resume(lengths, TakeInts(cursor, shape.layers - layer, 8))
    {
      if |cursor| < 8 {
        return lengths, Err(SnapshotTruncated);
      }
      TakeIntsStep(cursor, shape.layers - layer, 8, lengths);
      var length := FromLe(cursor[..8]);
      cursor := cursor[8..];
      if length > shape.capacity {
        ghost var all := TakeInts(bytes, shape.layers, 8);
        assert all.Some? ==> all.value.0[layer] == length;
        return lengths, Err(Refused(CapacityExhausted));
      }
      lengths := lengths + [length];
    }
    rest := Ok(cursor);
    assert lengths + [] == lengths;
  }

  // --- one token: per head its key lanes, then its value lanes ---------------------------

  lemma {:induction false} TakeIntsSplit(bytes: seq<byte>, m: nat, n: nat, width: nat)
    ensures TakeInts(bytes, m + n, width) ==
            match TakeInts(bytes, m, width)
            case None => None
            case Some((first, rest)) => Resume(first, TakeInts(rest, n, width))
    decreases m
  {
    if m == 0 {
      ResumeNone(TakeInts(bytes, n, width));
    } else if |bytes| >= width {
      TakeIntsSplit(bytes[width..], m - 1, n, width);
      if TakeInts(bytes[width..], m - 1, width).Some? {
        var (first, rest) := TakeInts(bytes[width..], m - 1, width).value;
        ResumeTwice([FromLe(bytes[..width])], first, TakeInts(rest, n, width));
      }
    }
  }

  lemma TakeWordsSplit(bytes: seq<byte>, m: nat, n: nat)
    ensures TakeWords(bytes, m + n) ==
            match TakeWords(bytes, m)
            case None => None
            case Some((first, rest)) => Resume(first, TakeWords(rest, n))
  {
    TakeIntsSplit(bytes, m, n, 4);
  }

  lemma {:induction false} LanesSnoc(shape: Shape, n: nat, row: Row, key: seq<F32>, value: seq<F32>)
    requires RowOfHeads(shape, n, row) && |key| == shape.keyDim && |value| == shape.valueDim
    ensures RowOfHeads(shape, n + 1, Row(row.keys + key, row.values + value))
    ensures Lanes(shape, n + 1, Row(row.keys + key, row.values + value)) == Lanes(shape, n, row) + (key + value)
    decreases n
  {
    if n == 0 {
      assert row.keys + key == key + [] && row.values + value == value + [];
      LanesCons(shape, 0, key, value, Row([], []));
    } else {
      var k, v, others := FirstHead(shape, n, row);
      LanesCons(shape, n - 1, k, v, others);
      LanesSnoc(shape, n - 1, others, key, value);
      LanesCons(shape, n, k, v, Row(others.keys + key, others.values + value));
      Assoc(k, others.keys, key);
      Assoc(v, others.values, value);
      Assoc(k + v, Lanes(shape, n - 1, others), key + value);
    }
  }

  lemma Assoc<T>(a: seq<T>, b: seq<T>, c: seq<T>)
    ensures a + b + c == a + (b + c)
  {}

  lemma FirstHead(shape: Shape, n: nat, row: Row) returns (key: seq<F32>, value: seq<F32>, others: Row)
    requires n > 0 && RowOfHeads(shape, n, row)
    ensures |key| == shape.keyDim && |value| == shape.valueDim && RowOfHeads(shape, n - 1, others)
    ensures row == Row(key + others.keys, value + others.values)
  {
    key, value := row.keys[..shape.keyDim], row.values[..shape.valueDim];
    others := Row(row.keys[shape.keyDim..], row.values[shape.valueDim..]);
  }

  /** What the snapshot still holds for the token when `head` heads have been read into `row`. */
  ghost function HeadsAhead(shape: Shape, cursor: seq<byte>, head: nat, row: Row): Option<(seq<F32>, seq<byte>)>
    requires head <= shape.heads && RowOfHeads(shape, head, row)
  {
    Resume(Lanes(shape, head, row), TakeWords(cursor, Times(shape.heads - head, shape.keyDim + shape.valueDim)))
  }

  lemma ReadHeadFails(shape: Shape, cursor: seq<byte>, head: nat, row: Row)
    requires head < shape.heads && RowOfHeads(shape, head, row)
    requires TakeWords(cursor, shape.keyDim + shape.valueDim) == None
    ensures HeadsAhead(shape, cursor, head, row) == None
  {
    TakeWordsSplit(cursor, shape.keyDim + shape.valueDim, Times(shape.heads - head - 1, shape.keyDim + shape.valueDim));
  }

  lemma ReadHeadStep(shape: Shape, cursor: seq<byte>, head: nat, row: Row, key: seq<F32>, value: seq<F32>,
                     next: seq<byte>)
    requires head < shape.heads && RowOfHeads(shape, head, row) && |key| == shape.keyDim && |value| == shape.valueDim
    requires TakeWords(cursor, shape.keyDim + shape.valueDim) == Some((key + value, next))
    ensures RowOfHeads(shape, head + 1, Row(row.keys + key, row.values + value))
    ensures HeadsAhead(shape, cursor, head, row) ==
            HeadsAhead(shape, next, head + 1, Row(row.keys + key, row.values + value))
  {
    var left := Times(shape.heads - head - 1, shape.keyDim + shape.valueDim);
    TakeWordsSplit(cursor, shape.keyDim + shape.valueDim, left);
    LanesSnoc(shape, head, row, key, value);
    ResumeTwice(Lanes(shape, head, row), key + value, TakeWords(next, left));
  }

  /** The buffers `keys` and `values` after the head loop, or nothing if the bytes run out. */
  method ReadToken(shape: Shape, bytes: seq<byte>) returns (row: Row, rest: Option<seq<byte>>)
    ensures rest == None <==> TakeWords(bytes, LaneCount(shape)) == None
    ensures rest.Some? ==>
              RowSized(shape, row) &&
              TakeWords(bytes, LaneCount(shape)) == Some((Lanes(shape, shape.heads, row), rest.value))
  {
    row := Row([], []);
    var cursor := bytes;
    ghost var all := TakeWords(bytes, LaneCount(shape));
    ResumeNone(all);
    for head := 0 to shape.heads
      invariant RowOfHeads(shape, head, row)
      invariant all == HeadsAhead(shape, cursor, head, row)
    {
      TakeWordsSplit(cursor, shape.keyDim, shape.valueDim);
      var key := TakeWords(cursor, shape.keyDim);
      if key == None {
        ReadHeadFails(shape, cursor, head, row);
        return row, None;
      }
      TakeWordsIsCanonical(cursor, shape.keyDim);
      var value := TakeWords(key.value.1, shape.valueDim);
      if value == None {
        ReadHeadFails(shape, cursor, head, row);
        return row, None;
      }
      TakeWordsIsCanonical(key.value.1, shape.valueDim);
      ReadHeadStep(shape, cursor, head, row, key.value.0, value.value.0, value.value.1);
      row := Row(row.keys + key.value.0, row.values + value.value.0);
      cursor := value.value.1;
    }
    rest := Some(cursor);
    assert Lanes(shape, shape.heads, row) + [] == Lanes(shape, shape.heads, row);
  }

  // --- layers, through `append` ----------------------------------------------------------

  lemma TakeRowsStep(shape: Shape, bytes: seq<byte>, n: nat, done: seq<Row>)
    requires n > 0
    ensures Resume(done, TakeRows(shape, bytes, n)) ==
            match TakeRow(shape, bytes)
            case None => None
            case Some((row, rest)) => Resume(done + [row], TakeRows(shape, rest, n - 1))
  {
    if TakeRow(shape, bytes).Some? {
      var (row, rest) := TakeRow(shape, bytes).value;
      assert TakeRows(shape, bytes, n) == Resume([row], TakeRows(shape, rest, n - 1));
      ResumeTwice(done, [row], TakeRows(shape, rest, n - 1));
    }
  }

  /** One token read and appended. */
  method RestoreToken(cache: PagedKvCache, layer: nat, cursor: seq<byte>, memory: bool)
    returns (next: Result<seq<byte>, SnapshotError>)
    requires cache.Valid() && layer < cache.shape.layers && RowFitsWord(cache.shape)
    requires |cache.Rows()[layer]| < cache.shape.capacity
    modifies cache
    ensures cache.Valid()
    ensures next.Ok? ==> TakeRow(cache.shape, cursor).Some? && next.value == TakeRow(cache.shape, cursor).value.1
    ensures next.Ok? ==> cache.Rows() ==
                         old(cache.Rows())[layer := old(cache.Rows())[layer] + [TakeRow(cache.shape, cursor).value.0]]
    ensures memory && PageFits(cache.shape) && TakeRow(cache.shape, cursor).Some? ==> next.Ok?
  {
    var row, rest := ReadToken(cache.shape, cursor);
    if rest == None {
      return Err(SnapshotTruncated);
    }
    UnlaceOfLanes(cache.shape, cache.shape.heads, row);
    OneTokenAppend(cache.shape, cache.Rows(), layer, row);
    var failure := cache.AppendTokens(layer, 1, row.keys, row.values, memory);
    if failure.Some? {
      return Err(Refused(failure.value));
    }
    next := Ok(rest.value);
  }

  /** The token loop of one layer. */
  method RestoreLayer(cache: PagedKvCache, layer: nat, length: nat, bytes: seq<byte>, memory: bool)
    returns (rest: Result<seq<byte>, SnapshotError>)
    requires cache.Valid() && layer < cache.shape.layers && length <= cache.shape.capacity
    requires RowFitsWord(cache.shape) && cache.Rows()[layer] == []
    modifies cache
    ensures cache.Valid()
    ensures rest.Ok? ==> TakeRows(cache.shape, bytes, length).Some? &&
                         TakeRows(cache.shape, bytes, length).value == (cache.Rows()[layer], rest.value) &&
                         cache.Rows() == old(cache.Rows())[layer := cache.Rows()[layer]]
    ensures memory && PageFits(cache.shape) && TakeRows(cache.shape, bytes, length).Some? ==> rest.Ok?
  {
    var shape := cache.shape;
    var cursor := bytes;
    ghost var before := cache.Rows();
    ResumeNone(TakeRows(shape, bytes, length));
    for token := 0 to length
      invariant cache.Valid() && |cache.Rows()[layer]| == token
      invariant cache.Rows() == before[layer := cache.Rows()[layer]]
      invariant TakeRows(shape, bytes, length) == Resume(cache.Rows()[layer], TakeRows(shape, cursor, length - token))
    {
      TakeRowsStep(shape, cursor, length - token, cache.Rows()[layer]);
      var next := RestoreToken(cache, layer, cursor, memory);
      if next.Err? {
        return next;
      }
      cursor := next.value;
    }
    rest := Ok(cursor);
    assert cache.Rows()[layer] + [] == cache.Rows()[layer];
  }

  lemma TakeLayersStep(shape: Shape, bytes: seq<byte>, lengths: seq<nat>, done: Flat)
    requires lengths != []
    ensures Resume(done, TakeLayers(shape, bytes, lengths)) ==
            match TakeRows(shape, bytes, lengths[0])
            case None => None
            case Some((rows, rest)) => Resume(done + [rows], TakeLayers(shape, rest, lengths[1..]))
  {
    if TakeRows(shape, bytes, lengths[0]).Some? {
      var (rows, rest) := TakeRows(shape, bytes, lengths[0]).value;
      assert TakeLayers(shape, bytes, lengths) == Resume([rows], TakeLayers(shape, rest, lengths[1..]));
      ResumeTwice(done, [rows], TakeLayers(shape, rest, lengths[1..]));
    }
  }

  /** The layer loop, on a fresh lazily backed cache. */
  method RestoreLayers(shape: Shape, lengths: seq<nat>, bytes: seq<byte>, memory: bool)
    returns (cache: PagedKvCache, rest: Result<seq<byte>, SnapshotError>)
    requires shape.Valid() && RowFitsWord(shape) && |lengths| == shape.layers && LengthsFit(shape, lengths)
    ensures fresh(cache) && cache.Valid() && cache.shape == shape
    ensures rest.Ok? ==> TakeLayers(shape, bytes, lengths) == Some((cache.Rows(), rest.value))
    ensures memory && PageFits(shape) && TakeLayers(shape, bytes, lengths).Some? ==> rest.Ok?
  {
    cache := new PagedKvCache(shape, false);
    var cursor := bytes;
    ResumeNone(TakeLayers(shape, bytes, lengths));
    assert lengths[0..] == lengths && cache.Rows()[..0] == [];
    for layer := 0 to shape.layers
      invariant fresh(cache) && cache.Valid() && cache.shape == shape
      invariant forall l | layer <= l < shape.layers :: cache.Rows()[l] == []
      invariant TakeLayers(shape, bytes, lengths) ==
                  Resume(cache.Rows()[..layer], TakeLayers(shape, cursor, lengths[layer..]))
    {
      ghost var done := cache.Rows()[..layer];
      TakeLayersStep(shape, cursor, lengths[layer..], done);
      assert lengths[layer..][1..] == lengths[layer + 1..];
      var next := RestoreLayer(cache, layer, lengths[layer], cursor, memory);
      if next.Err? {
        return cache, next;
      }
      assert cache.Rows()[..layer + 1] == done + [cache.Rows()[layer]];
      cursor := next.value;
    }
    rest := Ok(cursor);
    assert cache.Rows()[..shape.layers] == cache.Rows();
    assert cache.Rows() + [] == cache.Rows();
  }

  /** Restores a snapshot or leaves the cache exactly as it was. With memory to spare it accepts
      precisely the byte strings the format decodes. */
  method RestoreSnapshot(cache: PagedKvCache, sha: Sha256, binding: Digest, bytes: seq<byte>, maximum: nat,
                         uniform: bool, memory: bool)
    returns (failure: Option<SnapshotError>)
    requires cache.Valid()
    modifies cache
    ensures cache.Valid()
    ensures failure.Some? ==> cache.lengths == old(cache.lengths) && cache.pages == old(cache.pages)
    ensures failure == None ==> Decode(sha, cache.shape, binding, bytes, maximum, uniform) == Some(cache.Rows())
    ensures memory && PageFits(cache.shape) ==>
              (failure == None <==> Decode(sha, cache.shape, binding, bytes, maximum, uniform).Some?)
  {
    if maximum == 0 {
      return Some(ZeroSnapshotLimit);
    }
    if |bytes| > maximum {
      return Some(SnapshotTooLarge);
    }
    if |bytes| < 32 {
      return Some(SnapshotTruncated);
    }
    var body := bytes[..|bytes| - 32];
    if sha(body) != bytes[|bytes| - 32..] {
      return Some(SnapshotChecksum);
    }
    failure := RestoreBody(cache, binding, body, uniform, memory);
  }

  method RestoreBody(cache: PagedKvCache, binding: Digest, body: seq<byte>, uniform: bool, memory: bool)
    returns (failure: Option<SnapshotError>)
    requires cache.Valid()
    modifies cache
    ensures cache.Valid()
    ensures failure.Some? ==> cache.lengths == old(cache.lengths) && cache.pages == old(cache.pages)
    ensures failure == None ==> DecodeBody(cache.shape, binding, body, uniform) == Some(cache.Rows())
    ensures memory && PageFits(cache.shape) ==>
              (failure == None <==> DecodeBody(cache.shape, binding, body, uniform).Some?)
  {
    var shape := cache.shape;
    var payload := CheckHeader(shape, binding, body);
    if payload.Err? {
      return Some(payload.error);
    }
    var lengths, rows := ReadLengths(shape, payload.value);
    if rows.Err? {
      return Some(rows.error);
    }
    if uniform && !Uniform(lengths) {
      return Some(SnapshotLayerLength);
    }
    if PageFits(shape) {
      PageFitsRows(shape);
    }
    if !RowFitsWord(shape) {
      return Some(SnapshotOverflow);
    }
    TakeIntsIsCanonical(payload.value, shape.layers, 8);
    var restored, rest := RestoreLayers(shape, lengths, rows.value, memory);
    if rest.Err? {
      return Some(rest.error);
    }
    if rest.value != [] {
      return Some(SnapshotTrailingBytes);
    }
    cache.lengths, cache.pages := restored.lengths, restored.pages;
    failure := None;
  }

  // --- both directions, through the objects ------------------------------------------------

  /** Whatever a cache holds survives a trip through bytes into another cache of its shape. */
  method ExportThenRestore(cache: PagedKvCache, other: PagedKvCache, sha: Sha256, binding: Digest, maximum: nat)
    returns (ok: bool)
    requires cache.Valid() && other.Valid() && other != cache && other.shape == cache.shape && PageFits(cache.shape)
    requires maximum <= USIZE_MAX
    modifies other
    ensures cache.Valid() && other.Valid()
    ensures ok <==> LaneCount(cache.shape) <= USIZE_MAX && SnapshotBytes(cache.shape, cache.Rows()) <= maximum
    ensures ok ==> other.Rows() == cache.Rows()
    ensures !ok ==> other.Rows() == old(other.Rows())
  {
    var exported := ExportSnapshot(cache, sha, binding, maximum);
    if exported.Err? {
      return false;
    }
    FlatValidRows(cache.shape, cache.Rows());
    EncodeLength(sha, cache.shape, binding, cache.Rows());
    SnapshotIsCanonical(sha, cache.shape, binding, exported.value, maximum, false, cache.Rows());
    var failure := RestoreSnapshot(other, sha, binding, exported.value, maximum, false, true);
    ok := true;
  }

  /** Any accepted byte string comes back byte for byte. */
  method RestoreThenExport(cache: PagedKvCache, sha: Sha256, binding: Digest, bytes: seq<byte>, maximum: nat,
                           uniform: bool, memory: bool)
    returns (failure: Option<SnapshotError>, again: Result<seq<byte>, SnapshotError>)
    requires cache.Valid() && maximum <= USIZE_MAX
    modifies cache
    ensures cache.Valid()
    ensures failure.Some? ==> cache.Rows() == old(cache.Rows())
    ensures failure == None && LaneCount(cache.shape) <= USIZE_MAX ==> again == Ok(bytes)
  {
    failure := RestoreSnapshot(cache, sha, binding, bytes, maximum, uniform, memory);
    again := ExportSnapshot(cache, sha, binding, maximum);
    if failure == None {
      SnapshotIsCanonical(sha, cache.shape, binding, bytes, maximum, uniform, cache.Rows());
      EncodeLength(sha, cache.shape, binding, cache.Rows());
    }
  }
}
