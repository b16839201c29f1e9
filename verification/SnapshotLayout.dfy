/** Where every field of a snapshot is, byte by byte. Both formats are little-endian; a row is stored
    head by head, keys before values. */
module SnapshotLayout {
  import opened Common
  import opened KvLayout
  import opened PagedKv
  import opened KvSnapshot
  import opened KvSnapshotIo
  import opened Evaluator
  import opened SessionSnapshot

  // --- lists -----------------------------------------------------------------------------------

  lemma {:induction false} IntsAt(ns: seq<nat>, width: nat, i: nat)
    requires i < |ns|
    ensures IsSlice(Ints(ns, width), Times(i, width), Le(ns[i], width))
    decreases |ns|
  {
    if i == 0 {
      StillSlice(Le(ns[0], width), Ints(ns[1..], width), 0, Le(ns[0], width));
    } else {
      IntsAt(ns[1..], width, i - 1);
      SliceAfter(Le(ns[0], width), Ints(ns[1..], width), Times(i - 1, width), Le(ns[i], width));
    }
  }

  /** The number `n` stands at position `at`, in `width` bytes. */
  ghost predicate Field(b: seq<byte>, at: int, n: nat, width: nat) {
    IsSlice(b, at, Le(n, width))
  }

  lemma IntAt(ns: seq<nat>, width: nat, i: nat)
    requires i < |ns|
    ensures Field(Ints(ns, width), width * i, ns[i], width)
  {
    IntsAt(ns, width, i);
    TimesIsProduct(i, width);
  }

  lemma IntWithin(all: seq<byte>, a: seq<byte>, ns: seq<nat>, width: nat, c: seq<byte>, i: nat)
    requires i < |ns| && all == a + (Ints(ns, width) + c)
    ensures Field(all, |a| + width * i, ns[i], width)
  {
    IntAt(ns, width, i);
    Within(a, Ints(ns, width), c, width * i, Le(ns[i], width));
  }

  lemma IntBehind(all: seq<byte>, a: seq<byte>, b: seq<byte>, ns: seq<nat>, width: nat, c: seq<byte>, i: nat,
                  at: nat)
    requires i < |ns| && all == a + (b + (Ints(ns, width) + c)) && at == |a| + |b| + width * i
    ensures Field(all, at, ns[i], width)
  {
    IntWithin(b + (Ints(ns, width) + c), b, ns, width, c, i);
    SliceAfter(a, b + (Ints(ns, width) + c), |b| + width * i, Le(ns[i], width));
  }

  lemma FieldWithin(all: seq<byte>, a: seq<byte>, b: seq<byte>, c: seq<byte>, at: nat, n: nat, width: nat)
    requires Field(b, at, n, width) && all == a + (b + c)
    ensures Field(all, |a| + at, n, width)
  {
    Within(a, b, c, at, Le(n, width));
  }

  lemma FieldOfPart(b: seq<byte>, at: nat, part: seq<byte>, inner: nat, n: nat, width: nat)
    requires IsSlice(b, at, part) && Field(part, inner, n, width)
    ensures Field(b, at + inner, n, width)
  {
    SliceOfPart(b, at, part, inner, Le(n, width));
  }

  lemma Within<T>(a: seq<T>, b: seq<T>, c: seq<T>, at: nat, part: seq<T>)
    requires IsSlice(b, at, part)
    ensures IsSlice(a + (b + c), |a| + at, part)
  {
    StillSlice(b, c, at, part);
    SliceAfter(a, b + c, at, part);
  }

  /** The lanes of one head: its keys, then its values. */
  ghost function HeadLanes(shape: Shape, row: Row, head: nat): (r: seq<F32>)
    requires RowSized(shape, row) && head < shape.heads
    ensures |r| == shape.keyDim + shape.valueDim
  {
    HeadKey(shape, row, head) + HeadValue(shape, row, head)
  }

  /** The lanes of the heads before `head`, and those from it on. */
  lemma LanesFrom(shape: Shape, row: Row, head: nat) returns (before: seq<F32>)
    requires RowSized(shape, row) && head <= shape.heads
    ensures |before| == Times(head, shape.keyDim + shape.valueDim)
    ensures Lanes(shape, shape.heads, row) == before + LanesLeft(shape, row, head)
  {
    before := [];
    NoneBefore(shape, row);
    for h := 0 to head
      invariant |before| == Times(h, shape.keyDim + shape.valueDim)
      invariant Lanes(shape, shape.heads, row) == before + LanesLeft(shape, row, h)
    {
      NextLanes(shape, row, h);
      before := MoreBefore(Lanes(shape, shape.heads, row), before, LanesLeft(shape, row, h), HeadLanes(shape, row, h),
                           LanesLeft(shape, row, h + 1));
    }
  }

  ghost function LanesLeft(shape: Shape, row: Row, head: nat): seq<F32>
    requires RowSized(shape, row) && head <= shape.heads
  {
    Lanes(shape, shape.heads - head, Tail(shape, row, head))
  }

  lemma NoneBefore(shape: Shape, row: Row)
    requires RowSized(shape, row)
    ensures Lanes(shape, shape.heads, row) == [] + LanesLeft(shape, row, 0)
  {
    assert Tail(shape, row, 0) == row;
  }

  lemma MoreBefore<T>(all: seq<T>, prefix: seq<T>, rest: seq<T>, part: seq<T>, next: seq<T>) returns (before: seq<T>)
    requires all == prefix + rest && rest == part + next
    ensures before == prefix + part && all == before + next && |before| == |prefix| + |part|
  {
    before := prefix + part;
    Assoc3(prefix, part, next);
  }

  lemma Assoc3<T>(a: seq<T>, b: seq<T>, c: seq<T>)
    ensures a + (b + c) == a + b + c
  {}

  lemma NextLanes(shape: Shape, row: Row, head: nat)
    requires RowSized(shape, row) && head < shape.heads
    ensures LanesLeft(shape, row, head) == HeadLanes(shape, row, head) + LanesLeft(shape, row, head + 1)
  {
    TailSplit(shape, row, head);
    LanesCons(shape, shape.heads - head - 1, HeadKey(shape, row, head), HeadValue(shape, row, head),
              Tail(shape, row, head + 1));
  }

  lemma LanesAt(shape: Shape, row: Row, head: nat)
    requires RowSized(shape, row) && head < shape.heads
    ensures IsSlice(Lanes(shape, shape.heads, row), Times(head, shape.keyDim + shape.valueDim),
                    HeadLanes(shape, row, head))
  {
    var before := LanesFrom(shape, row, head);
    NextLanes(shape, row, head);
    Middle(Lanes(shape, shape.heads, row), before, HeadLanes(shape, row, head), LanesLeft(shape, row, head + 1));
  }

  lemma Middle<T>(all: seq<T>, a: seq<T>, b: seq<T>, c: seq<T>)
    requires all == a + (b + c)
    ensures IsSlice(all, |a|, b)
  {
    StillSlice(b, c, 0, b);
    SliceAfter(a, b + c, 0, b);
  }

  lemma {:induction false} RowsConcat(shape: Shape, a: seq<Row>, b: seq<Row>)
    requires RowsSized(shape, a) && RowsSized(shape, b)
    ensures RowsBytes(shape, a + b) == RowsBytes(shape, a) + RowsBytes(shape, b)
    decreases |a|
  {
    if a == [] {
      assert a + b == b;
    } else {
      RowsConcat(shape, a[1..], b);
      assert (a + b)[1..] == a[1..] + b;
      Assoc3(Words(Lanes(shape, shape.heads, a[0])), RowsBytes(shape, a[1..]), RowsBytes(shape, b));
    }
  }

  lemma RowsAt(shape: Shape, rows: seq<Row>, t: nat)
    requires RowsSized(shape, rows) && t < |rows|
    ensures IsSlice(RowsBytes(shape, rows), Times(t, RowBytes(shape)), Words(Lanes(shape, shape.heads, rows[t])))
  {
    assert rows == rows[..t] + rows[t..];
    RowsConcat(shape, rows[..t], rows[t..]);
    RowsBytesLength(shape, rows[..t]);
    RowsBytesFrom(shape, rows, t);
    Middle(RowsBytes(shape, rows), RowsBytes(shape, rows[..t]), Words(Lanes(shape, shape.heads, rows[t])),
           RowsBytes(shape, rows[t + 1..]));
  }

  lemma {:induction false} LayersConcat(shape: Shape, a: Flat, b: Flat)
    requires LayersSized(shape, a) && LayersSized(shape, b)
    ensures LayersSized(shape, a + b) && LayersBytes(shape, a + b) == LayersBytes(shape, a) + LayersBytes(shape, b)
    decreases |a|
  {
    if a == [] {
      assert a + b == b;
    } else {
      LayersConcat(shape, a[1..], b);
      assert (a + b)[1..] == a[1..] + b;
      Assoc3(RowsBytes(shape, a[0]), LayersBytes(shape, a[1..]), LayersBytes(shape, b));
    }
  }

  lemma LayersAt(shape: Shape, layers: Flat, l: nat)
    requires LayersSized(shape, layers) && l < |layers|
    ensures IsSlice(LayersBytes(shape, layers), Times(TotalRows(layers[..l]), RowBytes(shape)),
                    RowsBytes(shape, layers[l]))
  {
    assert layers == layers[..l] + layers[l..];
    LayersConcat(shape, layers[..l], layers[l..]);
    LayersBytesLength(shape, layers[..l]);
    assert layers[l..][1..] == layers[l + 1..];
    Middle(LayersBytes(shape, layers), LayersBytes(shape, layers[..l]), RowsBytes(shape, layers[l]),
           LayersBytes(shape, layers[l + 1..]));
  }

  // --- the KV snapshot -----------------------------------------------------------------------------

  /** The lane before which a stored value stands: rows of earlier layers, rows of earlier tokens,
      heads before this one. */
  ghost function LaneIndex(shape: Shape, flat: Flat, l: nat, t: nat, head: nat): nat
    requires l <= |flat|
  {
    Times(TotalRows(flat[..l]) + t, LaneCount(shape)) + Times(head, shape.keyDim + shape.valueDim)
  }

  lemma {:induction false} TimesFour(n: nat, width: nat)
    ensures Times(n, 4 * width) == 4 * Times(n, width)
  {
    if n > 0 {
      TimesFour(n - 1, width);
    }
  }

  /** Lane `i` of a head in the bytes of its row. */
  lemma LaneInRow(shape: Shape, row: Row, head: nat, i: nat)
    requires RowSized(shape, row) && head < shape.heads && i < shape.keyDim + shape.valueDim
    ensures Field(Words(Lanes(shape, shape.heads, row)), 4 * (Times(head, shape.keyDim + shape.valueDim) + i),
                  HeadLanes(shape, row, head)[i], 4)
  {
    var j := LaneAt(shape, row, head, i);
    IntAt(Lanes(shape, shape.heads, row), 4, j);
  }

  lemma LaneAt(shape: Shape, row: Row, head: nat, i: nat) returns (j: nat)
    requires RowSized(shape, row) && head < shape.heads && i < shape.keyDim + shape.valueDim
    ensures j == Times(head, shape.keyDim + shape.valueDim) + i < |Lanes(shape, shape.heads, row)|
    ensures Lanes(shape, shape.heads, row)[j] == HeadLanes(shape, row, head)[i]
  {
    LanesAt(shape, row, head);
    var at := Times(head, shape.keyDim + shape.valueDim);
    j := at + i;
    PartAt(Lanes(shape, shape.heads, row), at, HeadLanes(shape, row, head), i);
  }

  lemma PartAt<T>(xs: seq<T>, at: nat, part: seq<T>, i: nat)
    requires IsSlice(xs, at, part) && i < |part|
    ensures xs[at + i] == part[i]
  {
    assert xs[at..at + |part|][i] == part[i];
  }

  lemma LaneInRows(shape: Shape, rows: seq<Row>, t: nat, head: nat, i: nat)
    requires RowsSized(shape, rows) && t < |rows| && head < shape.heads && i < shape.keyDim + shape.valueDim
    ensures Field(RowsBytes(shape, rows),
                  Times(t, RowBytes(shape)) + 4 * (Times(head, shape.keyDim + shape.valueDim) + i),
                  HeadLanes(shape, rows[t], head)[i], 4)
  {
    RowsAt(shape, rows, t);
    LaneInRow(shape, rows[t], head, i);
    FieldOfPart(RowsBytes(shape, rows), Times(t, RowBytes(shape)), Words(Lanes(shape, shape.heads, rows[t])),
                4 * (Times(head, shape.keyDim + shape.valueDim) + i), HeadLanes(shape, rows[t], head)[i], 4);
  }

  lemma OffsetIs(shape: Shape, flat: Flat, l: nat, t: nat, head: nat, i: nat)
    requires l <= |flat|
    ensures Times(TotalRows(flat[..l]), RowBytes(shape)) +
            (Times(t, RowBytes(shape)) + 4 * (Times(head, shape.keyDim + shape.valueDim) + i)) ==
            4 * (LaneIndex(shape, flat, l, t, head) + i)
  {
    var before := TotalRows(flat[..l]);
    TimesAdd(before, t, RowBytes(shape));
    TimesFour(before + t, LaneCount(shape));
  }

  lemma LaneInPayload(shape: Shape, flat: Flat, l: nat, t: nat, head: nat, i: nat) returns (lane: F32)
    requires LayersSized(shape, flat) && l < |flat| && t < |flat[l]| && head < shape.heads
    requires i < shape.keyDim + shape.valueDim
    ensures RowSized(shape, flat[l][t]) && lane == HeadLanes(shape, flat[l][t], head)[i]
    ensures Field(LayersBytes(shape, flat), 4 * (LaneIndex(shape, flat, l, t, head) + i), lane, 4)
  {
    assert RowsSized(shape, flat[l]);
    lane := HeadLanes(shape, flat[l][t], head)[i];
    LayersAt(shape, flat, l);
    LaneInRows(shape, flat[l], t, head, i);
    OffsetIs(shape, flat, l, t, head, i);
    FieldOfPart(LayersBytes(shape, flat), Times(TotalRows(flat[..l]), RowBytes(shape)), RowsBytes(shape, flat[l]),
                Times(t, RowBytes(shape)) + 4 * (Times(head, shape.keyDim + shape.valueDim) + i), lane, 4);
  }

  /** A KV snapshot, field by field. */
  ghost predicate KvLaidOut(b: seq<byte>, shape: Shape, binding: Digest, flat: Flat)
    requires LayersSized(shape, flat)
  {
    IsSlice(b, 0, [0x4C, 0x42, 0x4B, 0x56, 0x30, 0x30, 0x30, 0x31]) && Field(b, 8, 1, 4) && IsSlice(b, 12, binding) &&
    Field(b, 44, shape.layers, 8) && Field(b, 52, shape.heads, 8) && Field(b, 60, shape.keyDim, 8) &&
    Field(b, 68, shape.valueDim, 8) && Field(b, 76, shape.pageTokens, 8) && Field(b, 84, shape.capacity, 8) &&
    (forall l: nat | l < |flat| :: LengthStored(b, flat, l)) &&
    forall l: nat, t: nat, head: nat, i: nat | l < |flat| && t < |flat[l]| && head < shape.heads &&
      i < shape.keyDim + shape.valueDim :: LaneStored(b, shape, flat, l, t, head, i)
  }

  ghost predicate LengthStored(b: seq<byte>, flat: Flat, l: nat)
    requires l < |flat|
  {
    Field(b, 92 + 8 * l, |flat[l]|, 8)
  }

  /** A cached value: four bytes at the place its layer, token, head and lane give it, the keys of a head
      before its values. */
  ghost predicate LaneStored(b: seq<byte>, shape: Shape, flat: Flat, l: nat, t: nat, head: nat, i: nat)
    requires LayersSized(shape, flat) && l < |flat| && t < |flat[l]| && head < shape.heads
    requires i < shape.keyDim + shape.valueDim
  {
    assert RowsSized(shape, flat[l]);
    var row := flat[l][t];
    var lane :=
      if i < shape.keyDim then HeadKey(shape, row, head)[i] else HeadValue(shape, row, head)[i - shape.keyDim];
    Field(b, 92 + 8 * |flat| + 4 * (LaneIndex(shape, flat, l, t, head) + i), lane, 4)
  }

  lemma FixedStored(b: seq<byte>, binding: Digest, rest: seq<byte>)
    requires b == MAGIC + Le(VERSION, 4) + binding + rest
    ensures IsSlice(b, 0, [0x4C, 0x42, 0x4B, 0x56, 0x30, 0x30, 0x30, 0x31]) && Field(b, 8, 1, 4) &&
            IsSlice(b, 12, binding)
  {
    ThreeFields(MAGIC, Le(VERSION, 4), binding, rest);
  }

  lemma ThreeFields(magic: seq<byte>, version: seq<byte>, id: seq<byte>, rest: seq<byte>)
    requires |magic| == 8 && |version| == 4 && |id| == 32
    ensures var b := magic + version + id + rest;
            IsSlice(b, 0, magic) && IsSlice(b, 8, version) && IsSlice(b, 12, id)
  {}

  lemma SixStored(b: seq<byte>, fixed: seq<byte>, ns: seq<nat>, rest: seq<byte>)
    requires |fixed| == 44 && |ns| == 6 && b == fixed + (Ints(ns, 8) + rest)
    ensures Field(b, 44, ns[0], 8) && Field(b, 52, ns[1], 8) && Field(b, 60, ns[2], 8) && Field(b, 68, ns[3], 8) &&
            Field(b, 76, ns[4], 8) && Field(b, 84, ns[5], 8)
  {
    IntWithin(b, fixed, ns, 8, rest, 0);
    IntWithin(b, fixed, ns, 8, rest, 1);
    IntWithin(b, fixed, ns, 8, rest, 2);
    IntWithin(b, fixed, ns, 8, rest, 3);
    IntWithin(b, fixed, ns, 8, rest, 4);
    IntWithin(b, fixed, ns, 8, rest, 5);
  }

  lemma LengthsStored(b: seq<byte>, fixed: seq<byte>, parameters: seq<byte>, flat: Flat, rest: seq<byte>)
    requires |fixed| == 44 && |parameters| == 48 && b == fixed + (parameters + (Ints(Lengths(flat), 8) + rest))
    ensures forall l: nat | l < |flat| :: LengthStored(b, flat, l)
  {
    forall l: nat | l < |flat| ensures LengthStored(b, flat, l) {
      LengthIsStored(b, fixed, parameters, Lengths(flat), rest, l);
    }
  }

  lemma LengthIsStored(b: seq<byte>, fixed: seq<byte>, parameters: seq<byte>, lengths: seq<nat>, rest: seq<byte>,
                       l: nat)
    requires |fixed| == 44 && |parameters| == 48 && b == fixed + (parameters + (Ints(lengths, 8) + rest))
    requires l < |lengths|
    ensures Field(b, 92 + 8 * l, lengths[l], 8)
  {
    IntBehind(b, fixed, parameters, lengths, 8, rest, l, 92 + 8 * l);
  }

  lemma LaneIsStored(b: seq<byte>, shape: Shape, front: seq<byte>, flat: Flat, digest: seq<byte>, l: nat, t: nat,
                     head: nat, i: nat)
    requires LayersSized(shape, flat) && |front| == 92 + 8 * |flat| && b == front + (LayersBytes(shape, flat) + digest)
    requires l < |flat| && t < |flat[l]| && head < shape.heads && i < shape.keyDim + shape.valueDim
    ensures LaneStored(b, shape, flat, l, t, head, i)
  {
    var lane := LaneInPayload(shape, flat, l, t, head, i);
    FieldWithin(b, front, LayersBytes(shape, flat), digest, 4 * (LaneIndex(shape, flat, l, t, head) + i), lane, 4);
    LaneMeans(b, shape, flat, l, t, head, i, lane);
  }

  lemma LaneMeans(b: seq<byte>, shape: Shape, flat: Flat, l: nat, t: nat, head: nat, i: nat, lane: F32)
    requires LayersSized(shape, flat) && l < |flat| && t < |flat[l]| && head < shape.heads
    requires i < shape.keyDim + shape.valueDim && RowSized(shape, flat[l][t])
    requires lane == HeadLanes(shape, flat[l][t], head)[i]
    requires Field(b, 92 + 8 * |flat| + 4 * (LaneIndex(shape, flat, l, t, head) + i), lane, 4)
    ensures LaneStored(b, shape, flat, l, t, head, i)
  {}

  /** An export is laid out like this, and ends in the digest of everything before it. */
  lemma KvExportLayout(sha: Sha256, shape: Shape, binding: Digest, flat: Flat)
    requires LayersSized(shape, flat) && |flat| == shape.layers
    ensures var b := Encode(sha, shape, binding, flat);
            KvLaidOut(b, shape, binding, flat) && 32 <= |b| && b[|b| - 32..] == sha(b[..|b| - 32])
  {
    var body := Body(shape, binding, flat);
    LaidOut(shape, binding, flat, sha(body), body + sha(body));
    LastPart(body, sha(body));
  }

  lemma LaidOut(shape: Shape, binding: Digest, flat: Flat, digest: Digest, b: seq<byte>)
    requires LayersSized(shape, flat) && |flat| == shape.layers && b == Body(shape, binding, flat) + digest
    ensures KvLaidOut(b, shape, binding, flat)
  {
    var fixed, parameters, lengths, payload := MAGIC + Le(VERSION, 4) + binding, Ints(shape.Parameters(), 8),
      Ints(Lengths(flat), 8), LayersBytes(shape, flat);
    SpansOf(shape, flat);
    FourParts(fixed, parameters, lengths, payload, digest);
    FixedStored(b, binding, parameters + (lengths + (payload + digest)));
    SixStored(b, fixed, shape.Parameters(), lengths + (payload + digest));
    LengthsStored(b, fixed, parameters, flat, payload + digest);
    AllLanesStored(b, shape, fixed + (parameters + lengths), flat, digest);
  }

  lemma AllLanesStored(b: seq<byte>, shape: Shape, front: seq<byte>, flat: Flat, digest: seq<byte>)
    requires LayersSized(shape, flat) && |front| == 92 + 8 * |flat| && b == front + (LayersBytes(shape, flat) + digest)
    ensures forall l: nat, t: nat, head: nat, i: nat | l < |flat| && t < |flat[l]| && head < shape.heads &&
              i < shape.keyDim + shape.valueDim :: LaneStored(b, shape, flat, l, t, head, i)
  {
    forall l: nat, t: nat, head: nat, i: nat | l < |flat| && t < |flat[l]| && head < shape.heads &&
      i < shape.keyDim + shape.valueDim ensures LaneStored(b, shape, flat, l, t, head, i)
    {
      LaneIsStored(b, shape, front, flat, digest, l, t, head, i);
    }
  }

  lemma SpansOf(shape: Shape, flat: Flat)
    ensures |Ints(shape.Parameters(), 8)| == 48 && |Ints(Lengths(flat), 8)| == 8 * |flat|
  {
    IntsLength(shape.Parameters(), 8);
    IntsLength(Lengths(flat), 8);
    TimesIsProduct(6, 8);
    TimesIsProduct(|flat|, 8);
  }

  lemma FourParts(a: seq<byte>, b: seq<byte>, c: seq<byte>, d: seq<byte>, e: seq<byte>)
    ensures a + b + (c + d) + e == a + (b + (c + (d + e)))
    ensures a + b + (c + d) + e == a + (b + c) + (d + e)
  {}

  lemma Behind(a: seq<byte>, b: seq<byte>, c: seq<byte>, rest: seq<byte>, at: nat, word: seq<byte>)
    requires IsSlice(rest, at, word)
    ensures IsSlice(a + (b + (c + rest)), |a| + |b| + |c| + at, word)
  {
    SliceAfter(c, rest, at, word);
    SliceAfter(b, c + rest, |c| + at, word);
    SliceAfter(a, b + (c + rest), |b| + (|c| + at), word);
  }

  // --- the session snapshot ----------------------------------------------------------------------------

  /** A session snapshot, field by field: the front, the tokens, the logits, the KV snapshot. */
  ghost predicate SessionLaidOut(b: seq<byte>, fingerprint: Digest, saved: Saved, kv: seq<byte>) {
    FrontLaidOut(b, fingerprint, |saved.history|, |saved.logits|, |kv|, if saved.hasLogits then 1 else 0) &&
    (forall i: nat | i < |saved.history| :: TokenStored(b, saved, i)) &&
    (forall j: nat | j < |saved.logits| :: LogitStored(b, saved, j)) &&
    IsSlice(b, 72 + 4 * |saved.history| + 4 * |saved.logits|, kv)
  }

  /** Magic, version, fingerprint, three lengths, the flag and three zero bytes. */
  ghost predicate FrontLaidOut(b: seq<byte>, fingerprint: Digest, tokens: nat, logits: nat, kv: nat, flag: byte) {
    IsSlice(b, 68, [flag, 0, 0, 0]) && IsSlice(b, 0, [0x4C, 0x42, 0x47, 0x53, 0x30, 0x30, 0x30, 0x31]) &&
    Field(b, 8, 1, 4) && IsSlice(b, 12, fingerprint) &&
    Field(b, 44, tokens, 8) && Field(b, 52, logits, 8) && Field(b, 60, kv, 8)
  }

  ghost predicate TokenStored(b: seq<byte>, saved: Saved, i: nat)
    requires i < |saved.history|
  {
    Field(b, 72 + 4 * i, saved.history[i], 4)
  }

  ghost predicate LogitStored(b: seq<byte>, saved: Saved, j: nat)
    requires j < |saved.logits|
  {
    Field(b, 72 + 4 * |saved.history| + 4 * j, saved.logits[j], 4)
  }

  lemma FrontStored(b: seq<byte>, fingerprint: Digest, ns: seq<nat>, flag: byte, rest: seq<byte>)
    requires |ns| == 3 && b == Prologue(fingerprint) + (Ints(ns, 8) + ([flag, 0, 0, 0] + rest))
    ensures FrontLaidOut(b, fingerprint, ns[0], ns[1], ns[2], flag)
  {
    ThreeInts(ns, 8);
    SevenFields(SESSION_MAGIC, Le(1, 4), fingerprint, Le(ns[0], 8), Le(ns[1], 8), Le(ns[2], 8), [flag, 0, 0, 0], rest);
  }

  lemma TokensStored(b: seq<byte>, front: seq<byte>, saved: Saved, rest: seq<byte>)
    requires |front| == 72 && b == front + (Ints(saved.history, 4) + rest)
    ensures forall i: nat | i < |saved.history| :: TokenStored(b, saved, i)
  {
    forall i: nat | i < |saved.history| ensures TokenStored(b, saved, i) {
      IntWithin(b, front, saved.history, 4, rest, i);
    }
  }

  lemma LogitsStored(b: seq<byte>, front: seq<byte>, tokens: seq<byte>, saved: Saved, rest: seq<byte>)
    requires |front| == 72 && |tokens| == 4 * |saved.history|
    requires b == front + (tokens + (Ints(saved.logits, 4) + rest))
    ensures forall j: nat | j < |saved.logits| :: LogitStored(b, saved, j)
  {
    forall j: nat | j < |saved.logits| ensures LogitStored(b, saved, j) {
      IntBehind(b, front, tokens, saved.logits, 4, rest, j, 72 + 4 * |saved.history| + 4 * j);
    }
  }

  lemma KvStored(b: seq<byte>, front: seq<byte>, tokens: seq<byte>, logits: seq<byte>, kv: seq<byte>, digest: seq<byte>)
    requires b == front + (tokens + (logits + (kv + digest)))
    ensures IsSlice(b, |front| + |tokens| + |logits|, kv)
  {
    StillSlice(kv, digest, 0, kv);
    Behind(front, tokens, logits, kv + digest, 0, kv);
  }

  /** An exported session is laid out like this, and ends in the digest of everything before it. */
  lemma SessionExportLayout(k: Kernels, sha: Sha256, fingerprint: Digest, saved: Saved)
    requires LayersSized(k.shape, saved.rows)
    ensures var b, kv := EncodeSession(k, sha, fingerprint, saved), Encode(sha, k.shape, fingerprint, saved.rows);
            SessionLaidOut(b, fingerprint, saved, kv) && 32 <= |b| && b[|b| - 32..] == sha(b[..|b| - 32])
  {
    var body := SessionBody(k, sha, fingerprint, saved);
    var kv := Encode(sha, k.shape, fingerprint, saved.rows);
    SessionIsLaidOut(fingerprint, saved, kv, sha(body), body + sha(body));
    LastPart(body, sha(body));
  }

  lemma SessionIsLaidOut(fingerprint: Digest, saved: Saved, kv: seq<byte>, digest: Digest, b: seq<byte>)
    requires var frame := Frame([|saved.history|, |saved.logits|, |kv|], saved.hasLogits,
                                ContentsBytes(saved.history, saved.logits, kv));
             b == FrameBytes(fingerprint, frame) + digest
    ensures SessionLaidOut(b, fingerprint, saved, kv)
  {
    var ns, flag: byte := [|saved.history|, |saved.logits|, |kv|], if saved.hasLogits then 1 else 0;
    var prologue, lengths, zeros := Prologue(fingerprint), Ints(ns, 8), [flag, 0, 0, 0];
    var tokens, logits := Ints(saved.history, 4), Ints(saved.logits, 4);
    Regrouped(prologue, lengths, zeros, tokens, logits, kv, digest);
    FrontStored(b, fingerprint, ns, flag, tokens + (logits + (kv + digest)));
    SessionSpans(fingerprint, ns, zeros, saved);
    ContentsStored(b, prologue + (lengths + zeros), saved, kv, digest);
  }

  lemma ContentsStored(b: seq<byte>, front: seq<byte>, saved: Saved, kv: seq<byte>, digest: seq<byte>)
    requires |front| == 72 && b == front + (Ints(saved.history, 4) + (Ints(saved.logits, 4) + (kv + digest)))
    requires |Ints(saved.history, 4)| == 4 * |saved.history| && |Ints(saved.logits, 4)| == 4 * |saved.logits|
    ensures forall i: nat | i < |saved.history| :: TokenStored(b, saved, i)
    ensures forall j: nat | j < |saved.logits| :: LogitStored(b, saved, j)
    ensures IsSlice(b, 72 + 4 * |saved.history| + 4 * |saved.logits|, kv)
  {
    var tokens, logits := Ints(saved.history, 4), Ints(saved.logits, 4);
    TokensStored(b, front, saved, logits + (kv + digest));
    LogitsStored(b, front, tokens, saved, kv + digest);
    KvStored(b, front, tokens, logits, kv, digest);
  }

  lemma SessionSpans(fingerprint: Digest, ns: seq<nat>, flag: seq<byte>, saved: Saved)
    requires |ns| == 3 && |flag| == 4
    ensures |Prologue(fingerprint) + (Ints(ns, 8) + flag)| == 72
    ensures |Ints(saved.history, 4)| == 4 * |saved.history| && |Ints(saved.logits, 4)| == 4 * |saved.logits|
  {
    IntsLength(ns, 8);
    TimesIsProduct(3, 8);
    IntsLength(saved.history, 4);
    TimesIsProduct(|saved.history|, 4);
    IntsLength(saved.logits, 4);
    TimesIsProduct(|saved.logits|, 4);
  }

  lemma Regrouped(a: seq<byte>, b: seq<byte>, c: seq<byte>, d: seq<byte>, e: seq<byte>, f: seq<byte>, g: seq<byte>)
    ensures a + (b + (c + (d + (e + f)))) + g == a + (b + (c + (d + (e + (f + g)))))
    ensures a + (b + (c + (d + (e + f)))) + g == a + (b + c) + (d + (e + (f + g)))
  {}

  lemma ThreeInts(ns: seq<nat>, width: nat)
    requires |ns| == 3
    ensures Ints(ns, width) == Le(ns[0], width) + (Le(ns[1], width) + Le(ns[2], width))
  {
    assert ns[1..][1..][1..] == [];
    assert Ints(ns[1..][1..], width) == Le(ns[2], width) + [];
    assert Ints(ns[1..], width) == Le(ns[1], width) + Ints(ns[1..][1..], width);
  }

  lemma SevenFields(magic: seq<byte>, version: seq<byte>, id: seq<byte>, a: seq<byte>, b: seq<byte>, c: seq<byte>,
                    flag: seq<byte>, rest: seq<byte>)
    requires |magic| == 8 && |version| == 4 && |id| == 32 && |a| == |b| == |c| == 8 && |flag| == 4
    ensures var all := magic + version + id + (a + (b + c) + (flag + rest));
            IsSlice(all, 0, magic) && IsSlice(all, 8, version) && IsSlice(all, 12, id) &&
            IsSlice(all, 44, a) && IsSlice(all, 52, b) && IsSlice(all, 60, c) && IsSlice(all, 68, flag)
  {}

  lemma LastPart(body: seq<byte>, digest: seq<byte>)
    requires |digest| == 32
    ensures (body + digest)[..|body + digest| - 32] == body && (body + digest)[|body + digest| - 32..] == digest
  {}
}
