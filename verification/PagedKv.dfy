/** The paged KV cache object and its refinement of one flat list of rows per layer. */
module PagedKv {
  import opened Common
  import opened KvLayout

  datatype KvError =
    | ZeroParameter
    | LayerOutOfRange
    | TokenOutOfRange
    | HeadOutOfRange
    | LengthMismatch
    | NonFiniteValue
    | CapacityExhausted
    | RewindBeyondStored
    | AllocationFailed
    | ArithmeticOverflow

  // --- the caller's token-major buffers ------------------------------------------------

  predicate BuffersFor(shape: Shape, n: nat, keys: seq<F32>, values: seq<F32>) {
    |keys| == Times(n, shape.KeyRow()) && |values| == Times(n, shape.ValueRow())
  }

  function SourceRow(shape: Shape, n: nat, keys: seq<F32>, values: seq<F32>, i: nat): (r: Row)
    requires BuffersFor(shape, n, keys, values) && i < n
    ensures |r.keys| == shape.KeyRow() && |r.values| == shape.ValueRow()
  {
    RowFits(i, n, shape.KeyRow());
    RowFits(i, n, shape.ValueRow());
    Row(Slice(keys, Times(i, shape.KeyRow()), shape.KeyRow()),
        Slice(values, Times(i, shape.ValueRow()), shape.ValueRow()))
  }

  /** The rows an append adds, in order. */
  function SourceRows(shape: Shape, n: nat, keys: seq<F32>, values: seq<F32>): (r: seq<Row>)
    requires BuffersFor(shape, n, keys, values)
    ensures |r| == n
  {
    seq(n, i requires 0 <= i < n => SourceRow(shape, n, keys, values, i))
  }

  function HeadKey(shape: Shape, row: Row, head: nat): (r: seq<F32>)
    requires |row.keys| == shape.KeyRow() && head < shape.heads
    ensures |r| == shape.keyDim
  {
    HeadFits(shape, head);
    Slice(row.keys, Times(head, shape.keyDim), shape.keyDim)
  }

  function HeadValue(shape: Shape, row: Row, head: nat): (r: seq<F32>)
    requires |row.values| == shape.ValueRow() && head < shape.heads
    ensures |r| == shape.valueDim
  {
    HeadFits(shape, head);
    Slice(row.values, Times(head, shape.valueDim), shape.valueDim)
  }

  lemma PrefixFits(shape: Shape, head: nat)
    requires head <= shape.heads
    ensures Times(head, shape.keyDim) <= shape.KeyRow() && Times(head, shape.valueDim) <= shape.ValueRow()
  {
    if head < shape.heads {
      HeadFits(shape, head);
    }
  }

  /** The first `head` heads of the two rows agree. */
  ghost predicate HeadsAgree(shape: Shape, a: Row, b: Row, head: nat)
    requires |a.keys| == |b.keys| == shape.KeyRow() && |a.values| == |b.values| == shape.ValueRow() &&
             head <= shape.heads
  {
    PrefixFits(shape, head);
    a.keys[..Times(head, shape.keyDim)] == b.keys[..Times(head, shape.keyDim)] &&
    a.values[..Times(head, shape.valueDim)] == b.values[..Times(head, shape.valueDim)]
  }

  lemma PutRowExtends(shape: Shape, row: Row, source: Row, head: nat)
    requires |row.keys| == |source.keys| == shape.KeyRow() && |row.values| == |source.values| == shape.ValueRow()
    requires head < shape.heads && HeadsAgree(shape, row, source, head)
    ensures HeadsAgree(shape, PutRow(shape, row, head, HeadKey(shape, source, head), HeadValue(shape, source, head)),
                       source, head + 1)
  {
    HeadFits(shape, head);
  }

  /** The inner copy loop: all heads of one token. */
  method WriteToken(shape: Shape, table: PageTable, token: nat, n: nat, keys: seq<F32>, values: seq<F32>, offset: nat)
    returns (result: PageTable)
    requires TableShaped(shape, table) && HasPage(shape, table, token)
    requires BuffersFor(shape, n, keys, values) && offset < n
    ensures TableShaped(shape, result) && forall i | 0 <= i < |table| :: result[i].Some? == table[i].Some?
    ensures RowAt(shape, result, token) == SourceRow(shape, n, keys, values, offset)
    ensures forall t: nat | t != token && HasPage(shape, table, t) :: RowAt(shape, result, t) == RowAt(shape, table, t)
  {
    result := table;
    ghost var source := SourceRow(shape, n, keys, values, offset);
    for head := 0 to shape.heads
      invariant TableShaped(shape, result) && forall i | 0 <= i < |table| :: result[i].Some? == table[i].Some?
      invariant HeadsAgree(shape, RowAt(shape, result, token), source, head)
      invariant forall t: nat | t != token && HasPage(shape, table, t) ::
                  RowAt(shape, result, t) == RowAt(shape, table, t)
    {
      SourceHead(shape, n, keys, values, offset, head);
      var sourceKey := (offset * shape.heads + head) * shape.keyDim;
      var sourceValue := (offset * shape.heads + head) * shape.valueDim;
      var key := keys[sourceKey..sourceKey + shape.keyDim];
      var value := values[sourceValue..sourceValue + shape.valueDim];
      PutRowExtends(shape, RowAt(shape, result, token), source, head);
      ghost var before := result;
      result := PutHead(shape, result, token, head, key, value);
      PutHeadWritesOneRow(shape, before, token, head, key, value, token);
      forall t: nat | t != token && HasPage(shape, table, t) ensures RowAt(shape, result, t) == RowAt(shape, table, t) {
        PutHeadWritesOneRow(shape, before, token, head, key, value, t);
      }
    }
    AllHeadsAgree(shape, RowAt(shape, result, token), source);
  }

  lemma AllHeadsAgree(shape: Shape, a: Row, b: Row)
    requires |a.keys| == |b.keys| == shape.KeyRow() && |a.values| == |b.values| == shape.ValueRow()
    requires HeadsAgree(shape, a, b, shape.heads)
    ensures a == b
  {}

  /** Where the source reads one head of one token out of the caller's buffers. */
  lemma SourceHead(shape: Shape, n: nat, keys: seq<F32>, values: seq<F32>, offset: nat, head: nat)
    requires BuffersFor(shape, n, keys, values) && offset < n && head < shape.heads
    ensures var sk := (offset * shape.heads + head) * shape.keyDim;
            0 <= sk && sk + shape.keyDim <= |keys| &&
            keys[sk..sk + shape.keyDim] == HeadKey(shape, SourceRow(shape, n, keys, values, offset), head)
    ensures var sv := (offset * shape.heads + head) * shape.valueDim;
            0 <= sv && sv + shape.valueDim <= |values| &&
            values[sv..sv + shape.valueDim] == HeadValue(shape, SourceRow(shape, n, keys, values, offset), head)
  {
    HeadOffset(shape.heads, shape.keyDim, offset, head);
    HeadOffset(shape.heads, shape.valueDim, offset, head);
    RowFits(offset, n, shape.KeyRow());
    RowFits(offset, n, shape.ValueRow());
    HeadFits(shape, head);
    SliceOfSlice(keys, Times(offset, shape.KeyRow()), shape.KeyRow(), Times(head, shape.keyDim), shape.keyDim);
    SliceOfSlice(values, Times(offset, shape.ValueRow()), shape.ValueRow(), Times(head, shape.valueDim),
                 shape.valueDim);
  }

  lemma SliceOfSlice<T>(buffer: seq<T>, start: nat, n: nat, inner: nat, m: nat)
    requires start + n <= |buffer| && inner + m <= n
    ensures Slice(Slice(buffer, start, n), inner, m) == Slice(buffer, start + inner, m)
  {
    var a, b := Slice(Slice(buffer, start, n), inner, m), Slice(buffer, start + inner, m);
    forall i | 0 <= i < m ensures a[i] == b[i] {
      assert Slice(buffer, start, n)[inner + i] == buffer[start + inner + i];
    }
  }

  /** The outer copy loop: tokens `stored .. stored + n`. */
  method WriteTokens(shape: Shape, table: PageTable, stored: nat, n: nat, keys: seq<F32>, values: seq<F32>)
    returns (result: PageTable)
    requires TableShaped(shape, table) && BuffersFor(shape, n, keys, values)
    requires forall t: nat | t < stored + n :: HasPage(shape, table, t)
    ensures TableShaped(shape, result) && forall t: nat | t < stored + n :: HasPage(shape, result, t)
    ensures forall t: nat | t < stored :: RowAt(shape, result, t) == RowAt(shape, table, t)
    ensures forall t: nat | stored <= t < stored + n ::
              RowAt(shape, result, t) == SourceRow(shape, n, keys, values, t - stored)
  {
    result := table;
    for i := 0 to n
      invariant TableShaped(shape, result) && forall j | 0 <= j < |table| :: result[j].Some? == table[j].Some?
      invariant forall t: nat | t < stored + n :: HasPage(shape, result, t)
      invariant forall t: nat | t < stored :: RowAt(shape, result, t) == RowAt(shape, table, t)
      invariant forall t: nat | stored <= t < stored + i ::
                  RowAt(shape, result, t) == SourceRow(shape, n, keys, values, t - stored)
    {
      result := WriteToken(shape, result, stored + i, n, keys, values, i);
      forall t: nat | t < stored + n ensures HasPage(shape, result, t) {
        assert HasPage(shape, table, t);
      }
    }
  }

  // --- allocating pages ----------------------------------------------------------------

  function ZeroPage(shape: Shape): KvPage {
    KvPage(Zeros(Times(shape.pageTokens, shape.KeyRow()), 0), Zeros(Times(shape.pageTokens, shape.ValueRow()), 0))
  }

  /** The page element counts do not overflow. */
  predicate PageFits(shape: Shape) {
    Times(shape.pageTokens, shape.KeyRow()) <= USIZE_MAX && Times(shape.pageTokens, shape.ValueRow()) <= USIZE_MAX
  }

  /** Gives every token of `start .. end` a page; all pages are built before any is installed,
      so a failure leaves the table as it was. `memory` says whether allocations succeed. */
  method EnsurePages(shape: Shape, table: PageTable, start: nat, end: nat, memory: bool)
    returns (result: PageTable, failure: Option<KvError>)
    requires shape.Valid() && TableShaped(shape, table) && start < end <= shape.capacity
    ensures failure.Some? ==> result == table && !(memory && PageFits(shape))
    ensures TableShaped(shape, result)
    ensures forall i | 0 <= i < |table| && table[i].Some? :: result[i] == table[i]
    ensures failure == None ==> forall t: nat | start <= t < end :: HasPage(shape, result, t)
  {
    var p := shape.pageTokens;
    var first, last := start / p, (end - 1) / p;
    Located(start, p);
    Located(end - 1, p);
    PageInTable(shape, end - 1);
    PageOfMonotone(start, end - 1, p);
    result, failure := table, None;
    for i := first to last + 1
      invariant TableShaped(shape, result)
      invariant forall j | 0 <= j < |table| && table[j].Some? :: result[j] == table[j]
      invariant forall j | first <= j < i :: result[j].Some?
    {
      if result[i].None? {
        if !PageFits(shape) {
          return table, Some(ArithmeticOverflow);
        }
        if !memory {
          return table, Some(AllocationFailed);
        }
        result := result[i := Some(ZeroPage(shape))];
      }
    }
    forall t: nat | start <= t < end ensures HasPage(shape, result, t) {
      PageOfMonotone(start, t, p);
      PageOfMonotone(t, end - 1, p);
    }
  }

  // --- the flat reference model --------------------------------------------------------

  /** One list of rows per layer: what the paged cache is meant to be. */
  type Flat = seq<seq<Row>>

  predicate RowOk(shape: Shape, row: Row) {
    |row.keys| == shape.KeyRow() && |row.values| == shape.ValueRow() && AllFinite(row.keys) && AllFinite(row.values)
  }

  predicate FlatValid(shape: Shape, flat: Flat) {
    |flat| == shape.layers &&
    forall l | 0 <= l < |flat| ::
      |flat[l]| <= shape.capacity && forall t | 0 <= t < |flat[l]| :: RowOk(shape, flat[l][t])
  }

  /** The argument checks of `append_tokens`, in order. */
  function AppendError(shape: Shape, flat: Flat, layer: nat, n: nat, keys: seq<F32>,
                       values: seq<F32>): Option<KvError> {
    if layer >= shape.layers || layer >= |flat| then Some(LayerOutOfRange)
    else if n == 0 then Some(ZeroParameter)
    else if Times(n, shape.KeyRow()) > USIZE_MAX || Times(n, shape.ValueRow()) > USIZE_MAX then Some(ArithmeticOverflow)
    else if !BuffersFor(shape, n, keys, values) then Some(LengthMismatch)
    else if !AllFinite(keys) || !AllFinite(values) then Some(NonFiniteValue)
    else if |flat[layer]| + n > USIZE_MAX then Some(ArithmeticOverflow)
    else if |flat[layer]| + n > shape.capacity then Some(CapacityExhausted)
    else None
  }

  function FlatAppend(shape: Shape, flat: Flat, layer: nat, n: nat, keys: seq<F32>, values: seq<F32>): Flat
    requires AppendError(shape, flat, layer, n, keys, values) == None
  {
    flat[layer := flat[layer] + SourceRows(shape, n, keys, values)]
  }

  predicate CanRewind(flat: Flat, n: nat) {
    forall l | 0 <= l < |flat| :: n <= |flat[l]|
  }

  function FlatRewind(flat: Flat, n: nat): Flat
    requires CanRewind(flat, n)
  {
    seq(|flat|, l requires 0 <= l < |flat| => flat[l][..n])
  }

  function FlatEmpty(layers: nat): Flat {
    seq(layers, _ => [])
  }

  // --- the object ----------------------------------------------------------------------

  predicate LayerValid(shape: Shape, table: PageTable, length: nat) {
    length <= shape.capacity && TableShaped(shape, table) &&
    forall t: nat | t < length :: HasPage(shape, table, t) && RowOk(shape, RowAt(shape, table, t))
  }

  function LayerRows(shape: Shape, table: PageTable, length: nat): (r: seq<Row>)
    requires LayerValid(shape, table, length)
    ensures |r| == length && forall t | 0 <= t < length :: r[t] == RowAt(shape, table, t) && RowOk(shape, r[t])
  {
    seq(length, t requires 0 <= t < length => RowAt(shape, table, t))
  }

  predicate TablesValid(shape: Shape, pages: seq<PageTable>, lengths: seq<nat>) {
    |lengths| == shape.layers && |pages| == shape.layers &&
    forall l | 0 <= l < shape.layers :: LayerValid(shape, pages[l], lengths[l])
  }

  function FlatOf(shape: Shape, pages: seq<PageTable>, lengths: seq<nat>): (r: Flat)
    requires TablesValid(shape, pages, lengths)
    ensures FlatValid(shape, r)
    ensures forall l | 0 <= l < shape.layers :: r[l] == LayerRows(shape, pages[l], lengths[l])
  {
    var r := seq(shape.layers, l requires 0 <= l < shape.layers => LayerRows(shape, pages[l], lengths[l]));
    assert forall l | 0 <= l < |r| :: r[l] == LayerRows(shape, pages[l], lengths[l]);
    r
  }

  lemma FlatOfPrefix(shape: Shape, pages: seq<PageTable>, lengths: seq<nat>, n: nat)
    requires TablesValid(shape, pages, lengths) && forall l | 0 <= l < shape.layers :: n <= lengths[l]
    ensures TablesValid(shape, pages, Zeros(shape.layers, n))
    ensures CanRewind(FlatOf(shape, pages, lengths), n)
    ensures FlatOf(shape, pages, Zeros(shape.layers, n)) == FlatRewind(FlatOf(shape, pages, lengths), n)
  {
    var flat, rewound := FlatOf(shape, pages, lengths), FlatOf(shape, pages, Zeros(shape.layers, n));
    forall l | 0 <= l < shape.layers ensures rewound[l] == flat[l][..n] {
      assert rewound[l] == LayerRows(shape, pages[l], n);
    }
  }

  /** The slices `key` and `value` return, at the offsets the source computes. */
  lemma HeadSlices(shape: Shape, table: PageTable, token: nat, head: nat)
    requires TableShaped(shape, table) && HasPage(shape, table, token) && head < shape.heads
    ensures var p := shape.pageTokens;
            PageOf(token, p) == token / p && token / p < |table| && table[token / p].Some?
    ensures var p := shape.pageTokens;
            var page, offset := table[token / p].value, ((token % p) * shape.heads + head) * shape.keyDim;
            0 <= offset && offset + shape.keyDim <= |page.keys| &&
            page.keys[offset..offset + shape.keyDim] == HeadKey(shape, RowAt(shape, table, token), head)
    ensures var p := shape.pageTokens;
            var page, offset := table[token / p].value, ((token % p) * shape.heads + head) * shape.valueDim;
            0 <= offset && offset + shape.valueDim <= |page.values| &&
            page.values[offset..offset + shape.valueDim] == HeadValue(shape, RowAt(shape, table, token), head)
  {
    var p := shape.pageTokens;
    var slot := SlotOf(token, p);
    Located(token, p);
    var page := table[PageOf(token, p)].value;
    HeadOffset(shape.heads, shape.keyDim, slot, head);
    HeadOffset(shape.heads, shape.valueDim, slot, head);
    RowFits(slot, p, shape.KeyRow());
    RowFits(slot, p, shape.ValueRow());
    HeadFits(shape, head);
    SliceOfSlice(page.keys, Times(slot, shape.KeyRow()), shape.KeyRow(), Times(head, shape.keyDim), shape.keyDim);
    SliceOfSlice(page.values, Times(slot, shape.ValueRow()), shape.ValueRow(), Times(head, shape.valueDim),
                 shape.valueDim);
  }

  /** One head's key of one stored token, out of its page. */
  method KeyIn(shape: Shape, table: PageTable, token: nat, head: nat) returns (key: seq<F32>)
    requires TableShaped(shape, table) && HasPage(shape, table, token) && head < shape.heads
    ensures key == HeadKey(shape, RowAt(shape, table, token), head)
  {
    HeadSlices(shape, table, token, head);
    var page := table[token / shape.pageTokens].value;
    var offset := ((token % shape.pageTokens) * shape.heads + head) * shape.keyDim;
    key := page.keys[offset..offset + shape.keyDim];
  }

  method ValueIn(shape: Shape, table: PageTable, token: nat, head: nat) returns (value: seq<F32>)
    requires TableShaped(shape, table) && HasPage(shape, table, token) && head < shape.heads
    ensures value == HeadValue(shape, RowAt(shape, table, token), head)
  {
    HeadSlices(shape, table, token, head);
    var page := table[token / shape.pageTokens].value;
    var offset := ((token % shape.pageTokens) * shape.heads + head) * shape.valueDim;
    value := page.values[offset..offset + shape.valueDim];
  }

  lemma SourceRowsFinite(shape: Shape, n: nat, keys: seq<F32>, values: seq<F32>, i: nat)
    requires BuffersFor(shape, n, keys, values) && AllFinite(keys) && AllFinite(values) && i < n
    ensures RowOk(shape, SourceRow(shape, n, keys, values, i))
  {
    RowFits(i, n, shape.KeyRow());
    RowFits(i, n, shape.ValueRow());
  }

  class PagedKvCache {
    const shape: Shape
    var lengths: seq<nat>
    var pages: seq<PageTable>

    ghost predicate Valid()
      reads this
    {
      shape.Valid() && TablesValid(shape, pages, lengths)
    }

    /** The rows a reader can observe. */
    ghost function Rows(): (r: Flat)
      requires Valid()
      reads this
      ensures FlatValid(shape, r)
      ensures forall l | 0 <= l < shape.layers :: |r[l]| == lengths[l]
    {
      FlatOf(shape, pages, lengths)
    }

    /** Eager construction backs every page at once, lazy construction none. */
    constructor (shape: Shape, eager: bool)
      requires shape.Valid()
      ensures Valid() && this.shape == shape
      ensures Rows() == FlatEmpty(shape.layers)
    {
      this.shape := shape;
      lengths := Zeros(shape.layers, 0);
      var page := if eager then Some(ZeroPage(shape)) else None;
      pages := Zeros(shape.layers, Zeros(shape.PageCount(), page));
    }

    /** Appends token-major rows to one layer. A failed call changes nothing a reader can see. */
    method AppendTokens(layer: nat, n: nat, keys: seq<F32>, values: seq<F32>, memory: bool)
      returns (failure: Option<KvError>)
      requires Valid()
      modifies this
      ensures Valid()
      ensures AppendError(shape, old(Rows()), layer, n, keys, values).Some? ==>
                failure == AppendError(shape, old(Rows()), layer, n, keys, values)
      ensures failure.Some? ==> Rows() == old(Rows())
      ensures failure == None ==> Rows() == FlatAppend(shape, old(Rows()), layer, n, keys, values)
      ensures AppendError(shape, old(Rows()), layer, n, keys, values) == None && memory && PageFits(shape) ==>
                failure == None
    {
      if layer >= shape.layers {
        return Some(LayerOutOfRange);
      }
      if n == 0 {
        return Some(ZeroParameter);
      }
      if Times(n, shape.KeyRow()) > USIZE_MAX || Times(n, shape.ValueRow()) > USIZE_MAX {
        return Some(ArithmeticOverflow);
      }
      if !BuffersFor(shape, n, keys, values) {
        return Some(LengthMismatch);
      }
      if !AllFinite(keys) || !AllFinite(values) {
        return Some(NonFiniteValue);
      }
      var stored := lengths[layer];
      if stored + n > USIZE_MAX {
        return Some(ArithmeticOverflow);
      }
      if stored + n > shape.capacity {
        return Some(CapacityExhausted);
      }
      ghost var flat := Rows();
      var table: PageTable;
      table, failure := EnsurePages(shape, pages[layer], stored, stored + n, memory);
      if failure.Some? {
        return;
      }
      EnsuredRowsSame(shape, pages[layer], table, stored, stored + n);
      var written := WriteTokens(shape, table, stored, n, keys, values);
      AppendedRows(shape, pages[layer], written, stored, n, keys, values);
      pages := pages[layer := written];
      lengths := lengths[layer := stored + n];
      assert Rows() == flat[layer := flat[layer] + SourceRows(shape, n, keys, values)];
    }

    method Key(layer: nat, token: nat, head: nat) returns (r: Result<seq<F32>, KvError>)
      requires Valid()
      ensures r.Ok? <==> layer < shape.layers && token < |Rows()[layer]| && head < shape.heads
      ensures r.Ok? ==> r.value == HeadKey(shape, Rows()[layer][token], head)
    {
      if layer >= shape.layers {
        return Err(LayerOutOfRange);
      }
      if token >= lengths[layer] {
        return Err(TokenOutOfRange);
      }
      if head >= shape.heads {
        return Err(HeadOutOfRange);
      }
      var key := KeyIn(shape, pages[layer], token, head);
      r := Ok(key);
    }

    method Value(layer: nat, token: nat, head: nat) returns (r: Result<seq<F32>, KvError>)
      requires Valid()
      ensures r.Ok? <==> layer < shape.layers && token < |Rows()[layer]| && head < shape.heads
      ensures r.Ok? ==> r.value == HeadValue(shape, Rows()[layer][token], head)
    {
      if layer >= shape.layers {
        return Err(LayerOutOfRange);
      }
      if token >= lengths[layer] {
        return Err(TokenOutOfRange);
      }
      if head >= shape.heads {
        return Err(HeadOutOfRange);
      }
      var value := ValueIn(shape, pages[layer], token, head);
      r := Ok(value);
    }

    /** Pages stay allocated; only the lengths change. */
    method Reset()
      requires Valid()
      modifies this`lengths
      ensures Valid() && Rows() == FlatEmpty(shape.layers)
    {
      lengths := Zeros(shape.layers, 0);
    }

    method RewindAll(n: nat) returns (failure: Option<KvError>)
      requires Valid()
      modifies this`lengths
      ensures Valid()
      ensures failure == None <==> CanRewind(old(Rows()), n)
      ensures failure == None ==> Rows() == FlatRewind(old(Rows()), n)
      ensures failure.Some? ==> Rows() == old(Rows())
    {
      for l := 0 to shape.layers
        invariant forall k | 0 <= k < l :: n <= lengths[k]
      {
        if n > lengths[l] {
          assert !(n <= |Rows()[l]|);
          return Some(RewindBeyondStored);
        }
      }
      FlatOfPrefix(shape, pages, lengths, n);
      lengths := Zeros(shape.layers, n);
      failure := None;
    }
  }

  /** Construction with its checks: no parameter is zero, the page count does not overflow, and an
      eager cache gets all its pages. `memory` says whether allocations succeed. */
  method NewCache(shape: Shape, eager: bool, memory: bool) returns (r: Result<PagedKvCache, KvError>)
    requires shape.MachineWords()
    ensures r.Ok? ==>
              fresh(r.value) && r.value.Valid() && r.value.shape == shape && r.value.Rows() == FlatEmpty(shape.layers)
    ensures r.Ok? ==> shape.Valid() && (eager ==> PageFits(shape))
    ensures memory && shape.Valid() && (eager ==> PageFits(shape)) ==> r.Ok?
    ensures r == Err(ZeroParameter) <==> 0 in shape.Parameters()
  {
    var parameters := shape.Parameters();
    for i := 0 to |parameters|
      invariant 0 !in parameters[..i]
    {
      if parameters[i] == 0 {
        return Err(ZeroParameter);
      }
    }
    assert parameters[..|parameters|] == parameters;
    if shape.capacity + shape.pageTokens - 1 > USIZE_MAX {
      return Err(ArithmeticOverflow);
    }
    if !memory {
      return Err(AllocationFailed);
    }
    if eager && !PageFits(shape) {
      return Err(ArithmeticOverflow);
    }
    var cache := new PagedKvCache(shape, eager);
    r := Ok(cache);
  }

  lemma EnsuredRowsSame(shape: Shape, table: PageTable, ensured: PageTable, stored: nat, end: nat)
    requires LayerValid(shape, table, stored) && TableShaped(shape, ensured) && stored <= end
    requires forall i | 0 <= i < |table| && table[i].Some? :: ensured[i] == table[i]
    requires forall t: nat | stored <= t < end :: HasPage(shape, ensured, t)
    ensures forall t: nat | t < end :: HasPage(shape, ensured, t)
    ensures forall t: nat | t < stored :: RowAt(shape, ensured, t) == RowAt(shape, table, t)
  {
    forall t: nat | t < stored
      ensures HasPage(shape, ensured, t) && RowAt(shape, ensured, t) == RowAt(shape, table, t)
    {
      assert HasPage(shape, table, t);
    }
  }

  lemma AppendedRows(shape: Shape, table: PageTable, written: PageTable, stored: nat, n: nat, keys: seq<F32>,
                     values: seq<F32>)
    requires LayerValid(shape, table, stored) && TableShaped(shape, written) && stored + n <= shape.capacity
    requires BuffersFor(shape, n, keys, values) && AllFinite(keys) && AllFinite(values)
    requires forall t: nat | t < stored + n :: HasPage(shape, written, t)
    requires forall t: nat | t < stored :: RowAt(shape, written, t) == RowAt(shape, table, t)
    requires forall t: nat | stored <= t < stored + n ::
               RowAt(shape, written, t) == SourceRow(shape, n, keys, values, t - stored)
    ensures LayerValid(shape, written, stored + n)
    ensures LayerRows(shape, written, stored + n) ==
            LayerRows(shape, table, stored) + SourceRows(shape, n, keys, values)
  {
    forall t: nat | t < stored + n ensures RowOk(shape, RowAt(shape, written, t)) {
      if t >= stored {
        SourceRowsFinite(shape, n, keys, values, t - stored);
      }
    }
  }

  // --- one token at a time -------------------------------------------------------------

  predicate RowSized(shape: Shape, row: Row) {
    |row.keys| == shape.KeyRow() && |row.values| == shape.ValueRow()
  }

  predicate RowsSized(shape: Shape, rows: seq<Row>) {
    forall t | 0 <= t < |rows| :: RowSized(shape, rows[t])
  }

  /** The element counts of one token's key and value buffers do not overflow. */
  predicate RowFitsWord(shape: Shape) {
    shape.KeyRow() <= USIZE_MAX && shape.ValueRow() <= USIZE_MAX
  }

  lemma PageFitsRows(shape: Shape)
    requires shape.Valid() && PageFits(shape)
    ensures RowFitsWord(shape)
  {
    RowFits(0, shape.pageTokens, shape.KeyRow());
    RowFits(0, shape.pageTokens, shape.ValueRow());
  }

  lemma OneTokenAppend(shape: Shape, flat: Flat, layer: nat, row: Row)
    requires shape.Valid() && RowFitsWord(shape) && FlatValid(shape, flat) && layer < shape.layers &&
             RowSized(shape, row)
    requires |flat[layer]| < shape.capacity
    ensures BuffersFor(shape, 1, row.keys, row.values) && SourceRows(shape, 1, row.keys, row.values) == [row]
    ensures AppendError(shape, flat, layer, 1, row.keys, row.values) == None <==>
              AllFinite(row.keys) && AllFinite(row.values)
  {
    TimesOne(shape.KeyRow());
    TimesOne(shape.ValueRow());
    assert SourceRow(shape, 1, row.keys, row.values, 0) == row;
  }

  // --- whole runs ----------------------------------------------------------------------

  datatype Op =
    | Append(layer: nat, n: nat, keys: seq<F32>, values: seq<F32>, memory: bool)
    | Rewind(n: nat)
    | Reset

  /** The outcomes an operation may have on a cache that shows `flat`. Only a call that needs
      memory and does not get it has a choice. */
  predicate Allowed(shape: Shape, flat: Flat, op: Op, failure: Option<KvError>) {
    match op
    case Append(layer, n, keys, values, memory) =>
      var error := AppendError(shape, flat, layer, n, keys, values);
      if error.Some? then failure == error else failure == None || !(memory && PageFits(shape))
    case Rewind(n) => failure == None <==> CanRewind(flat, n)
    case Reset => failure == None
  }

  function FlatStep(shape: Shape, flat: Flat, op: Op, failure: Option<KvError>): Flat
    requires Allowed(shape, flat, op, failure)
  {
    if failure.Some? then flat
    else match op
      case Append(layer, n, keys, values, _) => FlatAppend(shape, flat, layer, n, keys, values)
      case Rewind(n) => FlatRewind(flat, n)
      case Reset => FlatEmpty(shape.layers)
  }

  ghost predicate AllowedRun(shape: Shape, flat: Flat, ops: seq<Op>, failures: seq<Option<KvError>>)
    decreases |ops|
  {
    |failures| == |ops| &&
    (ops != [] ==>
       Allowed(shape, flat, ops[0], failures[0]) &&
       AllowedRun(shape, FlatStep(shape, flat, ops[0], failures[0]), ops[1..], failures[1..]))
  }

  ghost function FlatRun(shape: Shape, flat: Flat, ops: seq<Op>, failures: seq<Option<KvError>>): Flat
    requires AllowedRun(shape, flat, ops, failures)
    decreases |ops|
  {
    if ops == [] then flat
    else FlatRun(shape, FlatStep(shape, flat, ops[0], failures[0]), ops[1..], failures[1..])
  }

  /** The refinement over whole runs: whatever is appended, rewound or reset, and whichever
      calls fail, the paged cache shows what the flat lists hold. */
  method Replay(cache: PagedKvCache, ops: seq<Op>) returns (failures: seq<Option<KvError>>)
    requires cache.Valid()
    modifies cache
    ensures cache.Valid()
    ensures AllowedRun(cache.shape, old(cache.Rows()), ops, failures)
    ensures cache.Rows() == FlatRun(cache.shape, old(cache.Rows()), ops, failures)
    decreases |ops|
  {
    if ops == [] {
      return [];
    }
    var failure := None;
    match ops[0] {
      case Append(layer, n, keys, values, memory) => failure := cache.AppendTokens(layer, n, keys, values, memory);
      case Rewind(n) => failure := cache.RewindAll(n);
      case Reset => cache.Reset();
    }
    var rest := Replay(cache, ops[1..]);
    failures := [failure] + rest;
    assert failures[1..] == rest;
  }
}
