/** The KV snapshot format: a checksummed byte string that determines the cached rows, and is
    determined by them. */
module KvSnapshot {
  import opened Common
  import opened KvLayout
  import opened PagedKv

  /** "LBKV0001" */
  const MAGIC: seq<byte> := [0x4C, 0x42, 0x4B, 0x56, 0x30, 0x30, 0x30, 0x31]
  const VERSION: nat := 1

  /** A SHA-256 value. */
  type Digest = d: seq<byte> | |d| == 32 witness seq(32, _ => 0)

  type Sha256 = seq<byte> -> Digest

  // --- integers of a fixed width --------------------------------------------------------

  function Ints(ns: seq<nat>, width: nat): seq<byte> {
    if ns == [] then [] else Le(ns[0], width) + Ints(ns[1..], width)
  }

  /** The cursor: the next `n` integers and the bytes after them, or nothing when they run out. */
  function TakeInts(b: seq<byte>, n: nat, width: nat): Option<(seq<nat>, seq<byte>)>
    decreases n
  {
    if n == 0 then Some(([], b))
    else if |b| < width then None
    else
      match TakeInts(b[width..], n - 1, width)
      case None => None
      case Some((ns, rest)) => Some(([FromLe(b[..width])] + ns, rest))
  }

  lemma {:induction false} IntsLength(ns: seq<nat>, width: nat)
    ensures |Ints(ns, width)| == Times(|ns|, width)
  {
    if ns != [] {
      IntsLength(ns[1..], width);
    }
  }

  lemma SplitConcat<T>(a: seq<T>, b: seq<T>)
    ensures (a + b)[..|a|] == a && (a + b)[|a|..] == b
  {}

  lemma TakeIntsCons(first: nat, width: nat, more: seq<byte>, ns: seq<nat>, rest: seq<byte>)
    requires first < Pow256(width) && TakeInts(more, |ns|, width) == Some((ns, rest))
    ensures TakeInts(Le(first, width) + more, |ns| + 1, width) == Some(([first] + ns, rest))
  {
    LeRoundTrip(first, width);
    SplitConcat(Le(first, width), more);
  }

  lemma {:induction false} TakeIntsOfInts(ns: seq<nat>, width: nat, rest: seq<byte>)
    requires forall i | 0 <= i < |ns| :: ns[i] < Pow256(width)
    ensures TakeInts(Ints(ns, width) + rest, |ns|, width) == Some((ns, rest))
  {
    if ns == [] {
      assert Ints(ns, width) + rest == rest;
    } else {
      TakeIntsOfInts(ns[1..], width, rest);
      TakeIntsCons(ns[0], width, Ints(ns[1..], width) + rest, ns[1..], rest);
      assert Ints(ns, width) + rest == Le(ns[0], width) + (Ints(ns[1..], width) + rest);
      assert [ns[0]] + ns[1..] == ns;
    }
  }

  lemma IntsCons(first: nat, more: seq<nat>, width: nat)
    ensures Ints([first] + more, width) == Le(first, width) + Ints(more, width)
  {
    assert ([first] + more)[1..] == more;
  }

  lemma RejoinPrefix<T>(s: seq<T>, n: nat, middle: seq<T>, rest: seq<T>)
    requires n <= |s| && s[n..] == middle + rest
    ensures s == s[..n] + middle + rest
  {
    assert s == s[..n] + s[n..];
  }

  lemma {:induction false} TakeIntsIsCanonical(b: seq<byte>, n: nat, width: nat)
    requires TakeInts(b, n, width).Some?
    ensures var (ns, rest) := TakeInts(b, n, width).value;
            |ns| == n && b == Ints(ns, width) + rest && forall i | 0 <= i < n :: ns[i] < Pow256(width)
    decreases n
  {
    if n > 0 {
      var (more, rest) := TakeInts(b[width..], n - 1, width).value;
      TakeIntsIsCanonical(b[width..], n - 1, width);
      FromLeRoundTrip(b[..width]);
      IntsCons(FromLe(b[..width]), more, width);
      RejoinPrefix(b, width, Ints(more, width), rest);
    }
  }

  function Words(xs: seq<F32>): seq<byte> {
    Ints(xs, 4)
  }

  function TakeWords(b: seq<byte>, n: nat): Option<(seq<F32>, seq<byte>)> {
    match TakeInts(b, n, 4)
    case None => None
    case Some((ns, rest)) =>
      TakeIntsIsCanonical(b, n, 4);
      Pow256Values();
      Some((ns, rest))
  }

  lemma WordsLength(xs: seq<F32>)
    ensures |Words(xs)| == 4 * |xs|
  {
    IntsLength(xs, 4);
    TimesIsProduct(|xs|, 4);
  }

  lemma TakeWordsOfWords(xs: seq<F32>, rest: seq<byte>)
    ensures TakeWords(Words(xs) + rest, |xs|) == Some((xs, rest))
  {
    Pow256Values();
    TakeIntsOfInts(xs, 4, rest);
  }

  lemma TakeWordsIsCanonical(b: seq<byte>, n: nat)
    requires TakeWords(b, n).Some?
    ensures var (xs, rest) := TakeWords(b, n).value; |xs| == n && b == Words(xs) + rest
  {
    TakeIntsIsCanonical(b, n, 4);
  }

  // --- rows: per head, its key lanes and then its value lanes ---------------------------

  predicate RowOfHeads(shape: Shape, n: nat, row: Row) {
    |row.keys| == Times(n, shape.keyDim) && |row.values| == Times(n, shape.valueDim)
  }

  /** The lanes of a row in snapshot order. */
  function Lanes(shape: Shape, n: nat, row: Row): (r: seq<F32>)
    requires RowOfHeads(shape, n, row)
    ensures |r| == Times(n, shape.keyDim + shape.valueDim)
    decreases n
  {
    if n == 0 then []
    else row.keys[..shape.keyDim] + row.values[..shape.valueDim] +
         Lanes(shape, n - 1, Row(row.keys[shape.keyDim..], row.values[shape.valueDim..]))
  }

  function Unlace(shape: Shape, n: nat, lanes: seq<F32>): (r: Row)
    requires |lanes| == Times(n, shape.keyDim + shape.valueDim)
    ensures RowOfHeads(shape, n, r)
    decreases n
  {
    if n == 0 then Row([], [])
    else
      var others := Unlace(shape, n - 1, lanes[shape.keyDim + shape.valueDim..]);
      Row(lanes[..shape.keyDim] + others.keys, lanes[shape.keyDim..shape.keyDim + shape.valueDim] + others.values)
  }

  lemma UnlaceCons(shape: Shape, n: nat, key: seq<F32>, value: seq<F32>, lanes: seq<F32>)
    requires |key| == shape.keyDim && |value| == shape.valueDim && |lanes| == Times(n, shape.keyDim + shape.valueDim)
    ensures Unlace(shape, n + 1, key + value + lanes)
         == Row(key + Unlace(shape, n, lanes).keys, value + Unlace(shape, n, lanes).values)
  {
    var all := key + value + lanes;
    assert all[..|key|] == key && all[|key|..|key| + |value|] == value && all[|key| + |value|..] == lanes;
  }

  lemma {:induction false} UnlaceOfLanes(shape: Shape, n: nat, row: Row)
    requires RowOfHeads(shape, n, row)
    ensures Unlace(shape, n, Lanes(shape, n, row)) == row
    decreases n
  {
    if n > 0 {
      var k, v := shape.keyDim, shape.valueDim;
      var others, lanes := OtherLanes(shape, n, row);
      UnlaceOfLanes(shape, n - 1, others);
      UnlaceCons(shape, n - 1, row.keys[..k], row.values[..v], lanes);
      JoinSlices(row.keys, k);
      JoinSlices(row.values, v);
    }
  }

  lemma OtherLanes(shape: Shape, n: nat, row: Row) returns (others: Row, lanes: seq<F32>)
    requires n > 0 && RowOfHeads(shape, n, row)
    ensures others == Row(row.keys[shape.keyDim..], row.values[shape.valueDim..])
    ensures RowOfHeads(shape, n - 1, others) && lanes == Lanes(shape, n - 1, others)
    ensures Lanes(shape, n, row) == row.keys[..shape.keyDim] + row.values[..shape.valueDim] + lanes
  {
    others := Row(row.keys[shape.keyDim..], row.values[shape.valueDim..]);
    lanes := Lanes(shape, n - 1, others);
  }

  lemma LanesCons(shape: Shape, n: nat, key: seq<F32>, value: seq<F32>, others: Row)
    requires |key| == shape.keyDim && |value| == shape.valueDim && RowOfHeads(shape, n, others)
    ensures Lanes(shape, n + 1, Row(key + others.keys, value + others.values)) == key + value + Lanes(shape, n, others)
  {
    SplitConcat(key, others.keys);
    SplitConcat(value, others.values);
  }

  lemma JoinThree<T>(s: seq<T>, a: nat, b: nat)
    requires a <= b <= |s|
    ensures s == s[..a] + s[a..b] + s[b..]
  {}

  lemma {:induction false} LanesOfUnlace(shape: Shape, n: nat, lanes: seq<F32>)
    requires |lanes| == Times(n, shape.keyDim + shape.valueDim)
    ensures Lanes(shape, n, Unlace(shape, n, lanes)) == lanes
    decreases n
  {
    if n > 0 {
      var k, w := shape.keyDim, shape.keyDim + shape.valueDim;
      var others := Others(shape, n, lanes);
      LanesOfUnlace(shape, n - 1, lanes[w..]);
      LanesCons(shape, n - 1, lanes[..k], lanes[k..w], others);
      JoinThree(lanes, k, w);
    }
  }

  lemma Others(shape: Shape, n: nat, lanes: seq<F32>) returns (others: Row)
    requires n > 0 && |lanes| == Times(n, shape.keyDim + shape.valueDim)
    ensures var k, w := shape.keyDim, shape.keyDim + shape.valueDim;
            others == Unlace(shape, n - 1, lanes[w..]) &&
            Unlace(shape, n, lanes) == Row(lanes[..k] + others.keys, lanes[k..w] + others.values)
  {
    others := Unlace(shape, n - 1, lanes[shape.keyDim + shape.valueDim..]);
  }

  function LaneCount(shape: Shape): nat {
    Times(shape.heads, shape.keyDim + shape.valueDim)
  }

  // --- layers --------------------------------------------------------------------------

  predicate LayersSized(shape: Shape, layers: seq<seq<Row>>) {
    forall l | 0 <= l < |layers| :: RowsSized(shape, layers[l])
  }

  function RowsBytes(shape: Shape, rows: seq<Row>): seq<byte>
    requires RowsSized(shape, rows)
  {
    if rows == [] then []
    else Words(Lanes(shape, shape.heads, rows[0])) + RowsBytes(shape, rows[1..])
  }

  /** A decoded row enters through `append`, which refuses values that are not finite. */
  function TakeRow(shape: Shape, b: seq<byte>): Option<(Row, seq<byte>)> {
    match TakeWords(b, LaneCount(shape))
    case None => None
    case Some((lanes, rest)) =>
      TakeWordsIsCanonical(b, LaneCount(shape));
      var row := Unlace(shape, shape.heads, lanes);
      if AllFinite(row.keys) && AllFinite(row.values) then Some((row, rest)) else None
  }

  lemma TakeRowOfRow(shape: Shape, row: Row, rest: seq<byte>)
    requires RowOk(shape, row)
    ensures TakeRow(shape, Words(Lanes(shape, shape.heads, row)) + rest) == Some((row, rest))
  {
    TakeWordsOfWords(Lanes(shape, shape.heads, row), rest);
    UnlaceOfLanes(shape, shape.heads, row);
  }

  lemma TakeRowIsCanonical(shape: Shape, b: seq<byte>)
    requires TakeRow(shape, b).Some?
    ensures var (row, rest) := TakeRow(shape, b).value;
            RowOk(shape, row) && b == Words(Lanes(shape, shape.heads, row)) + rest
  {
    TakeWordsIsCanonical(b, LaneCount(shape));
    LanesOfUnlace(shape, shape.heads, TakeWords(b, LaneCount(shape)).value.0);
  }

  function TakeRows(shape: Shape, b: seq<byte>, n: nat): Option<(seq<Row>, seq<byte>)>
    decreases n
  {
    if n == 0 then Some(([], b))
    else match TakeRow(shape, b)
      case None => None
      case Some((row, afterRow)) =>
        match TakeRows(shape, afterRow, n - 1)
        case None => None
        case Some((rows, rest)) => Some(([row] + rows, rest))
  }

  function LayersBytes(shape: Shape, layers: seq<seq<Row>>): seq<byte>
    requires LayersSized(shape, layers)
  {
    if layers == [] then [] else RowsBytes(shape, layers[0]) + LayersBytes(shape, layers[1..])
  }

  function TakeLayers(shape: Shape, b: seq<byte>, lengths: seq<nat>): Option<(seq<seq<Row>>, seq<byte>)>
    decreases |lengths|
  {
    if lengths == [] then Some(([], b))
    else match TakeRows(shape, b, lengths[0])
      case None => None
      case Some((rows, afterRows)) =>
        match TakeLayers(shape, afterRows, lengths[1..])
        case None => None
        case Some((layers, rest)) => Some(([rows] + layers, rest))
  }

  ghost predicate RowsOk(shape: Shape, rows: seq<Row>) {
    forall t | 0 <= t < |rows| :: RowOk(shape, rows[t])
  }

  lemma RowsBytesCons(shape: Shape, row: Row, more: seq<Row>, rest: seq<byte>)
    requires RowSized(shape, row) && RowsSized(shape, more)
    ensures RowsSized(shape, [row] + more)
    ensures RowsBytes(shape, [row] + more) + rest
         == Words(Lanes(shape, shape.heads, row)) + (RowsBytes(shape, more) + rest)
  {
    assert ([row] + more)[1..] == more;
  }

  lemma {:induction false} TakeRowsOfRows(shape: Shape, rows: seq<Row>, rest: seq<byte>)
    requires RowsOk(shape, rows)
    ensures RowsSized(shape, rows) && TakeRows(shape, RowsBytes(shape, rows) + rest, |rows|) == Some((rows, rest))
  {
    if rows == [] {
      assert RowsBytes(shape, rows) + rest == rest;
    } else {
      assert RowOk(shape, rows[0]);
      assert rows == [rows[0]] + rows[1..];
      TakeRowsOfRows(shape, rows[1..], rest);
      RowsBytesCons(shape, rows[0], rows[1..], rest);
      TakeRowOfRow(shape, rows[0], RowsBytes(shape, rows[1..]) + rest);
    }
  }

  lemma {:induction false} TakeRowsIsCanonical(shape: Shape, b: seq<byte>, n: nat)
    requires TakeRows(shape, b, n).Some?
    ensures var (rows, rest) := TakeRows(shape, b, n).value;
            |rows| == n && RowsOk(shape, rows) && RowsSized(shape, rows) && b == RowsBytes(shape, rows) + rest
    decreases n
  {
    if n > 0 {
      TakeRowIsCanonical(shape, b);
      var (row, afterRow) := TakeRow(shape, b).value;
      TakeRowsIsCanonical(shape, afterRow, n - 1);
      var (more, rest) := TakeRows(shape, afterRow, n - 1).value;
      RowsBytesCons(shape, row, more, rest);
    }
  }

  function Lengths(flat: Flat): (r: seq<nat>)
    ensures |r| == |flat| && forall l | 0 <= l < |r| :: r[l] == |flat[l]|
  {
    seq(|flat|, l requires 0 <= l < |flat| => |flat[l]|)
  }

  ghost predicate LayersOk(shape: Shape, layers: Flat) {
    forall l | 0 <= l < |layers| :: RowsOk(shape, layers[l])
  }

  lemma LayersBytesCons(shape: Shape, rows: seq<Row>, more: Flat, rest: seq<byte>)
    requires RowsSized(shape, rows) && LayersSized(shape, more)
    ensures LayersSized(shape, [rows] + more)
    ensures LayersBytes(shape, [rows] + more) + rest == RowsBytes(shape, rows) + (LayersBytes(shape, more) + rest)
    ensures Lengths([rows] + more) == [|rows|] + Lengths(more)
  {
    assert ([rows] + more)[1..] == more;
  }

  lemma TakeLayersCons(shape: Shape, rows: seq<Row>, b: seq<byte>, lengths: seq<nat>, more: Flat, rest: seq<byte>)
    requires RowsOk(shape, rows) && TakeLayers(shape, b, lengths) == Some((more, rest))
    ensures RowsSized(shape, rows)
    ensures TakeLayers(shape, RowsBytes(shape, rows) + b, [|rows|] + lengths) == Some(([rows] + more, rest))
  {
    TakeRowsOfRows(shape, rows, b);
    assert ([|rows|] + lengths)[1..] == lengths;
  }

  lemma {:induction false} TakeLayersOfLayers(shape: Shape, layers: Flat, rest: seq<byte>)
    requires LayersOk(shape, layers)
    ensures LayersSized(shape, layers)
    ensures TakeLayers(shape, LayersBytes(shape, layers) + rest, Lengths(layers)) == Some((layers, rest))
  {
    forall l | 0 <= l < |layers| ensures RowsSized(shape, layers[l]) {
      assert RowsOk(shape, layers[l]);
    }
    if layers == [] {
      assert LayersBytes(shape, layers) + rest == rest;
    } else {
      assert layers == [layers[0]] + layers[1..];
      TakeLayersOfLayers(shape, layers[1..], rest);
      LayersBytesCons(shape, layers[0], layers[1..], rest);
      TakeLayersCons(shape, layers[0], LayersBytes(shape, layers[1..]) + rest, Lengths(layers[1..]), layers[1..], rest);
    }
  }

  lemma {:induction false} TakeLayersIsCanonical(shape: Shape, b: seq<byte>, lengths: seq<nat>)
    requires TakeLayers(shape, b, lengths).Some?
    ensures var (layers, rest) := TakeLayers(shape, b, lengths).value;
            Lengths(layers) == lengths && LayersOk(shape, layers) &&
            LayersSized(shape, layers) && b == LayersBytes(shape, layers) + rest
    decreases |lengths|
  {
    if lengths != [] {
      TakeRowsIsCanonical(shape, b, lengths[0]);
      var (rows, afterRows) := TakeRows(shape, b, lengths[0]).value;
      TakeLayersIsCanonical(shape, afterRows, lengths[1..]);
      var (more, rest) := TakeLayers(shape, afterRows, lengths[1..]).value;
      LayersBytesCons(shape, rows, more, rest);
      assert lengths == [lengths[0]] + lengths[1..];
    }
  }

  // --- whole snapshots -----------------------------------------------------------------

  function Header(shape: Shape, binding: Digest): seq<byte> {
    MAGIC + Le(VERSION, 4) + binding + Ints(shape.Parameters(), 8)
  }

  ghost predicate RowsValid(shape: Shape, flat: Flat) {
    |flat| == shape.layers && (forall l | 0 <= l < |flat| :: |flat[l]| <= shape.capacity && RowsOk(shape, flat[l])) &&
    LayersSized(shape, flat)
  }

  lemma FlatValidRows(shape: Shape, flat: Flat)
    ensures FlatValid(shape, flat) <==> RowsValid(shape, flat)
  {
    if FlatValid(shape, flat) {
      forall l | 0 <= l < |flat| ensures RowsOk(shape, flat[l]) && RowsSized(shape, flat[l]) {
        assert forall t | 0 <= t < |flat[l]| :: RowOk(shape, flat[l][t]);
      }
    }
    if RowsValid(shape, flat) {
      forall l, t | 0 <= l < |flat| && 0 <= t < |flat[l]| ensures RowOk(shape, flat[l][t]) {
        assert RowsOk(shape, flat[l]);
      }
    }
  }

  function Body(shape: Shape, binding: Digest, flat: Flat): seq<byte>
    requires LayersSized(shape, flat)
  {
    Header(shape, binding) + (Ints(Lengths(flat), 8) + LayersBytes(shape, flat))
  }

  function Encode(sha: Sha256, shape: Shape, binding: Digest, flat: Flat): seq<byte>
    requires LayersSized(shape, flat)
  {
    Body(shape, binding, flat) + sha(Body(shape, binding, flat))
  }

  predicate Uniform(lengths: seq<nat>) {
    forall l | 0 <= l < |lengths| :: lengths[l] == lengths[0]
  }

  function DecodeBody(shape: Shape, binding: Digest, body: seq<byte>, uniform: bool): Option<Flat> {
    var header := Header(shape, binding);
    if !(header <= body) then None
    else match TakeInts(body[|header|..], shape.layers, 8)
      case None => None
      case Some((lengths, payload)) =>
        if !(forall l | 0 <= l < |lengths| :: lengths[l] <= shape.capacity) || (uniform && !Uniform(lengths)) then None
        else match TakeLayers(shape, payload, lengths)
          case None => None
          case Some((flat, rest)) => if rest == [] then Some(flat) else None
  }

  function Decode(sha: Sha256, shape: Shape, binding: Digest, bytes: seq<byte>, maximum: nat,
                  uniform: bool): Option<Flat> {
    if maximum == 0 || |bytes| > maximum || |bytes| < 32 then None
    else
      var body := bytes[..|bytes| - 32];
      if sha(body) != bytes[|bytes| - 32..] then None else DecodeBody(shape, binding, body, uniform)
  }

  lemma DecodeBodyOfBody(shape: Shape, binding: Digest, flat: Flat, uniform: bool)
    requires shape.Valid() && RowsValid(shape, flat) && (uniform ==> Uniform(Lengths(flat)))
    ensures DecodeBody(shape, binding, Body(shape, binding, flat), uniform) == Some(flat)
  {
    var header, lengths, payload := Header(shape, binding), Lengths(flat), LayersBytes(shape, flat);
    SplitConcat(header, Ints(lengths, 8) + payload);
    assert lengths != [] && forall l | 0 <= l < |lengths| :: lengths[l] <= shape.capacity;
    Pow256Values();
    TakeIntsOfInts(lengths, 8, payload);
    TakeLayersOfLayers(shape, flat, []);
    assert payload + [] == payload;
  }

  lemma DecodeBodyIsCanonical(shape: Shape, binding: Digest, body: seq<byte>, uniform: bool)
    requires DecodeBody(shape, binding, body, uniform).Some?
    ensures var flat := DecodeBody(shape, binding, body, uniform).value;
            RowsValid(shape, flat) && (uniform ==> Uniform(Lengths(flat))) && body == Body(shape, binding, flat)
  {
    var header := Header(shape, binding);
    var tail, lengths, payload, flat := BodyPieces(shape, binding, body, uniform);
    TakeIntsIsCanonical(tail, shape.layers, 8);
    TakeLayersIsCanonical(shape, payload, lengths);
    assert LayersBytes(shape, flat) + [] == LayersBytes(shape, flat);
    BoundedLayers(shape, flat, lengths);
  }

  /** What an accepted body is made of. */
  lemma BodyPieces(shape: Shape, binding: Digest, body: seq<byte>, uniform: bool)
    returns (tail: seq<byte>, lengths: seq<nat>, payload: seq<byte>, flat: Flat)
    requires DecodeBody(shape, binding, body, uniform).Some?
    ensures body == Header(shape, binding) + tail && DecodeBody(shape, binding, body, uniform).value == flat
    ensures TakeInts(tail, shape.layers, 8) == Some((lengths, payload))
    ensures TakeLayers(shape, payload, lengths) == Some((flat, []))
    ensures (forall l | 0 <= l < |lengths| :: lengths[l] <= shape.capacity) && (uniform ==> Uniform(lengths))
  {
    tail := body[|Header(shape, binding)|..];
    var (ns, rest) := TakeInts(tail, shape.layers, 8).value;
    lengths, payload := ns, rest;
    flat := TakeLayers(shape, payload, lengths).value.0;
  }

  lemma BoundedLayers(shape: Shape, flat: Flat, lengths: seq<nat>)
    requires |lengths| == shape.layers && Lengths(flat) == lengths && LayersOk(shape, flat) && LayersSized(shape, flat)
    requires forall l | 0 <= l < |lengths| :: lengths[l] <= shape.capacity
    ensures RowsValid(shape, flat)
  {
    assert forall l | 0 <= l < |flat| :: |flat[l]| == lengths[l];
  }

  lemma DecodeOfEncode(sha: Sha256, shape: Shape, binding: Digest, maximum: nat, uniform: bool, flat: Flat)
    requires shape.Valid() && RowsValid(shape, flat) && (uniform ==> Uniform(Lengths(flat)))
    requires |Encode(sha, shape, binding, flat)| <= maximum
    ensures Decode(sha, shape, binding, Encode(sha, shape, binding, flat), maximum, uniform) == Some(flat)
  {
    var body := Body(shape, binding, flat);
    SplitConcat(body, sha(body));
    assert |body| == |Encode(sha, shape, binding, flat)| - 32;
    DecodeBodyOfBody(shape, binding, flat, uniform);
  }

  lemma DecodeIsCanonical(sha: Sha256, shape: Shape, binding: Digest, bytes: seq<byte>, maximum: nat, uniform: bool)
    requires Decode(sha, shape, binding, bytes, maximum, uniform).Some?
    ensures var flat := Decode(sha, shape, binding, bytes, maximum, uniform).value;
            RowsValid(shape, flat) && (uniform ==> Uniform(Lengths(flat))) && bytes == Encode(sha, shape, binding, flat)
  {
    var body := bytes[..|bytes| - 32];
    JoinSlices(bytes, |bytes| - 32);
    DecodeBodyIsCanonical(shape, binding, body, uniform);
  }

  lemma JoinSlices<T>(s: seq<T>, n: nat)
    requires n <= |s|
    ensures s == s[..n] + s[n..]
  {}

  /** The format is canonical: within the limit, a byte string restores to `flat` exactly when
      it is the export of `flat`, so decoding and encoding are inverse in both directions. */
  lemma SnapshotIsCanonical(sha: Sha256, shape: Shape, binding: Digest, bytes: seq<byte>, maximum: nat, uniform: bool,
                            flat: Flat)
    requires shape.Valid()
    ensures Decode(sha, shape, binding, bytes, maximum, uniform) == Some(flat) <==>
            |bytes| <= maximum && RowsValid(shape, flat) && (uniform ==> Uniform(Lengths(flat))) &&
            bytes == Encode(sha, shape, binding, flat)
  {
    if Decode(sha, shape, binding, bytes, maximum, uniform) == Some(flat) {
      DecodeIsCanonical(sha, shape, binding, bytes, maximum, uniform);
    } else if |bytes| <= maximum && RowsValid(shape, flat) && (uniform ==> Uniform(Lengths(flat))) {
      if bytes == Encode(sha, shape, binding, flat) {
        DecodeOfEncode(sha, shape, binding, maximum, uniform, flat);
      }
    }
  }

  // --- sizes ---------------------------------------------------------------------------

  function TotalRows(layers: Flat): nat {
    if layers == [] then 0 else |layers[0]| + TotalRows(layers[1..])
  }

  /** Bytes of one token's row, as `export_snapshot` computes them. */
  function RowBytes(shape: Shape): nat {
    4 * LaneCount(shape)
  }

  function SnapshotBytes(shape: Shape, flat: Flat): nat {
    8 + 4 + 32 + 6 * 8 + 8 * shape.layers + 32 + Times(TotalRows(flat), RowBytes(shape))
  }

  lemma {:induction false} RowsBytesLength(shape: Shape, rows: seq<Row>)
    requires RowsSized(shape, rows)
    ensures |RowsBytes(shape, rows)| == Times(|rows|, RowBytes(shape))
  {
    if rows != [] {
      WordsLength(Lanes(shape, shape.heads, rows[0]));
      RowsBytesLength(shape, rows[1..]);
    }
  }

  lemma {:induction false} LayersBytesLength(shape: Shape, layers: Flat)
    requires LayersSized(shape, layers)
    ensures |LayersBytes(shape, layers)| == Times(TotalRows(layers), RowBytes(shape))
  {
    if layers != [] {
      RowsBytesLength(shape, layers[0]);
      LayersBytesLength(shape, layers[1..]);
      TimesAdd(|layers[0]|, TotalRows(layers[1..]), RowBytes(shape));
    }
  }

  /** The reserved size is exact. */
  lemma EncodeLength(sha: Sha256, shape: Shape, binding: Digest, flat: Flat)
    requires LayersSized(shape, flat) && |flat| == shape.layers
    ensures |Encode(sha, shape, binding, flat)| == SnapshotBytes(shape, flat)
  {
    IntsLength(shape.Parameters(), 8);
    IntsLength(Lengths(flat), 8);
    TimesIsProduct(6, 8);
    TimesIsProduct(shape.layers, 8);
    LayersBytesLength(shape, flat);
  }
}
