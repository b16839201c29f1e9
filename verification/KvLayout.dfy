/** The lazily paged KV cache: fixed-size pages of token rows, filled on demand, that behave
    like one growing list of rows per layer. This module holds the layout and its lemmas. */
module KvLayout {
  import opened Common

  /** `n * width`, unfolded one row at a time: the offset of row `n` in a buffer of equal rows. */
  function Times(n: nat, width: nat): nat {
    if n == 0 then 0 else Times(n - 1, width) + width
  }

  lemma {:induction false} TimesIsProduct(n: nat, width: nat)
    ensures Times(n, width) == n * width
  {
    if n > 0 {
      TimesIsProduct(n - 1, width);
      assert n * width == (n - 1) * width + width;
    }
  }

  lemma TimesOne(width: nat)
    ensures Times(1, width) == width
  {
    assert Times(0, width) == 0;
  }

  lemma {:induction false} TimesAdd(a: nat, b: nat, width: nat)
    ensures Times(a + b, width) == Times(a, width) + Times(b, width)
  {
    if b > 0 {
      TimesAdd(a, b - 1, width);
    }
  }

  lemma {:induction false} TimesNested(a: nat, b: nat, width: nat)
    ensures Times(Times(a, b), width) == Times(a, Times(b, width))
  {
    if a > 0 {
      TimesNested(a - 1, b, width);
      TimesAdd(Times(a - 1, b), b, width);
    }
  }

  lemma {:induction false} RowFits(index: nat, count: nat, width: nat)
    requires index < count
    ensures Times(index, width) + width <= Times(count, width)
    decreases count
  {
    if index < count - 1 {
      RowFits(index, count - 1, width);
    }
  }

  lemma MixedRadix(a: nat, x: nat, b: nat, y: nat, radix: nat)
    requires x < radix && y < radix && a * radix + x == b * radix + y
    ensures a == b && x == y
  {
    assert a < b ==> (a + 1) * radix <= b * radix;
    assert b < a ==> (b + 1) * radix <= a * radix;
  }

  /** The page that holds token `t` and the slot within it: `t / p` and `t % p`, unfolded one
      page at a time. */
  function PageOf(t: nat, p: nat): nat
    requires p > 0
  {
    if t < p then 0 else 1 + PageOf(t - p, p)
  }

  function SlotOf(t: nat, p: nat): (slot: nat)
    requires p > 0
    ensures slot < p
  {
    if t < p then t else SlotOf(t - p, p)
  }

  lemma OnePageLess(t: nat, p: nat)
    requires p > 0 && t >= p
    ensures t / p == (t - p) / p + 1 && t % p == (t - p) % p
  {
    var q := (t - p) / p;
    assert t - p == q * p + (t - p) % p;
    assert (q + 1) * p == q * p + p;
    MixedRadix(t / p, t % p, q + 1, (t - p) % p, p);
  }

  lemma {:induction false} Located(t: nat, p: nat)
    requires p > 0
    ensures t == Times(PageOf(t, p), p) + SlotOf(t, p)
    ensures PageOf(t, p) == t / p && SlotOf(t, p) == t % p
    decreases t
  {
    if t >= p {
      Located(t - p, p);
      OnePageLess(t, p);
    }
  }

  lemma {:induction false} PageOfMonotone(s: nat, t: nat, p: nat)
    requires p > 0 && s <= t
    ensures PageOf(s, p) <= PageOf(t, p)
    decreases t
  {
    if s >= p {
      PageOfMonotone(s - p, t - p, p);
    }
  }

  datatype Shape = Shape(layers: nat, heads: nat, keyDim: nat, valueDim: nat, pageTokens: nat, capacity: nat) {
    /** What the constructor accepts: machine-word parameters, none of them zero, and a page
        count that does not overflow. */
    predicate Valid() {
      0 < layers <= USIZE_MAX && 0 < heads <= USIZE_MAX && 0 < keyDim <= USIZE_MAX && 0 < valueDim <= USIZE_MAX &&
      0 < pageTokens && 0 < capacity && capacity + pageTokens - 1 <= USIZE_MAX
    }

    /** Parameters are machine words. */
    predicate MachineWords() {
      layers <= USIZE_MAX && heads <= USIZE_MAX && keyDim <= USIZE_MAX && valueDim <= USIZE_MAX &&
      pageTokens <= USIZE_MAX && capacity <= USIZE_MAX
    }

    function Parameters(): (r: seq<nat>)
      ensures |r| == 6
    {
      [layers, heads, keyDim, valueDim, pageTokens, capacity]
    }

    /** F32 values per token in the key and in the value buffer of a page. */
    function KeyRow(): nat { Times(heads, keyDim) }

    function ValueRow(): nat { Times(heads, valueDim) }

    function PageCount(): nat
      requires pageTokens > 0
    {
      (capacity + pageTokens - 1) / pageTokens
    }
  }

  datatype KvPage = KvPage(keys: seq<F32>, values: seq<F32>)

  type PageTable = seq<Option<KvPage>>

  /** One token's keys and values, all heads side by side. */
  datatype Row = Row(keys: seq<F32>, values: seq<F32>)

  // --- buffers of equally wide rows ----------------------------------------------------

  function Slice<T>(buffer: seq<T>, start: nat, n: nat): seq<T>
    requires start + n <= |buffer|
  {
    buffer[start..start + n]
  }

  function Splice<T>(buffer: seq<T>, start: nat, part: seq<T>): (r: seq<T>)
    requires start + |part| <= |buffer|
    ensures |r| == |buffer|
  {
    buffer[..start] + part + buffer[start + |part|..]
  }

  lemma SpliceOutside<T>(buffer: seq<T>, start: nat, part: seq<T>, from: nat, n: nat)
    requires start + |part| <= |buffer| && from + n <= |buffer|
    requires from + n <= start || start + |part| <= from
    ensures Slice(Splice(buffer, start, part), from, n) == Slice(buffer, from, n)
  {
    var a, b := Slice(Splice(buffer, start, part), from, n), Slice(buffer, from, n);
    forall i | 0 <= i < n ensures a[i] == b[i] {
      assert a[i] == Splice(buffer, start, part)[from + i];
    }
  }

  lemma SpliceInside<T>(buffer: seq<T>, start: nat, part: seq<T>, from: nat, n: nat)
    requires from <= start && start + |part| <= from + n <= |buffer|
    ensures Slice(Splice(buffer, start, part), from, n) == Splice(Slice(buffer, from, n), start - from, part)
  {
    var a, b := Slice(Splice(buffer, start, part), from, n), Splice(Slice(buffer, from, n), start - from, part);
    forall i | 0 <= i < n ensures a[i] == b[i] {
      assert a[i] == Splice(buffer, start, part)[from + i];
    }
  }

  lemma SpliceSameRow<T>(buffer: seq<T>, count: nat, width: nat, row: nat, at: nat, part: seq<T>)
    requires |buffer| == Times(count, width) && row < count && at + |part| <= width
    ensures Times(row, width) + width <= |buffer|
    ensures Slice(Splice(buffer, Times(row, width) + at, part), Times(row, width), width)
         == Splice(Slice(buffer, Times(row, width), width), at, part)
  {
    RowFits(row, count, width);
    SpliceInside(buffer, Times(row, width) + at, part, Times(row, width), width);
  }

  lemma RowsApart(a: nat, b: nat, width: nat)
    requires a != b
    ensures Times(a, width) + width <= Times(b, width) || Times(b, width) + width <= Times(a, width)
  {
    if a < b {
      RowFits(a, b, width);
    } else {
      RowFits(b, a, width);
    }
  }

  lemma SpliceOtherRow<T>(buffer: seq<T>, count: nat, width: nat, row: nat, at: nat, part: seq<T>, other: nat)
    requires |buffer| == Times(count, width) && row < count && other < count && at + |part| <= width && other != row
    ensures Times(row, width) + width <= |buffer| && Times(other, width) + width <= |buffer|
    ensures Slice(Splice(buffer, Times(row, width) + at, part), Times(other, width), width)
         == Slice(buffer, Times(other, width), width)
  {
    RowFits(row, count, width);
    RowFits(other, count, width);
    RowsApart(row, other, width);
    SpliceOutside(buffer, Times(row, width) + at, part, Times(other, width), width);
  }

  // --- one page ------------------------------------------------------------------------

  predicate PageSized(page: KvPage, slots: nat, keyRow: nat, valueRow: nat) {
    |page.keys| == Times(slots, keyRow) && |page.values| == Times(slots, valueRow)
  }

  function PageRow(page: KvPage, slots: nat, keyRow: nat, valueRow: nat, slot: nat): (r: Row)
    requires PageSized(page, slots, keyRow, valueRow) && slot < slots
    ensures |r.keys| == keyRow && |r.values| == valueRow
  {
    RowFits(slot, slots, keyRow);
    RowFits(slot, slots, valueRow);
    Row(Slice(page.keys, Times(slot, keyRow), keyRow), Slice(page.values, Times(slot, valueRow), valueRow))
  }

  function PutPage(page: KvPage, slots: nat, keyRow: nat, valueRow: nat, slot: nat,
                   keyAt: nat, key: seq<F32>, valueAt: nat, value: seq<F32>): (r: KvPage)
    requires PageSized(page, slots, keyRow, valueRow) && slot < slots
    requires keyAt + |key| <= keyRow && valueAt + |value| <= valueRow
    ensures PageSized(r, slots, keyRow, valueRow)
  {
    RowFits(slot, slots, keyRow);
    RowFits(slot, slots, valueRow);
    KvPage(Splice(page.keys, Times(slot, keyRow) + keyAt, key),
           Splice(page.values, Times(slot, valueRow) + valueAt, value))
  }

  lemma PutPageWritesOneRow(page: KvPage, slots: nat, keyRow: nat, valueRow: nat, slot: nat,
                            keyAt: nat, key: seq<F32>, valueAt: nat, value: seq<F32>, other: nat)
    requires PageSized(page, slots, keyRow, valueRow) && slot < slots && other < slots
    requires keyAt + |key| <= keyRow && valueAt + |value| <= valueRow
    ensures PageRow(PutPage(page, slots, keyRow, valueRow, slot, keyAt, key, valueAt, value), slots, keyRow, valueRow,
                    other)
         == var before := PageRow(page, slots, keyRow, valueRow, other);
            if other == slot then Row(Splice(before.keys, keyAt, key), Splice(before.values, valueAt, value))
            else before
  {
    if other == slot {
      SpliceSameRow(page.keys, slots, keyRow, slot, keyAt, key);
      SpliceSameRow(page.values, slots, valueRow, slot, valueAt, value);
    } else {
      SpliceOtherRow(page.keys, slots, keyRow, slot, keyAt, key, other);
      SpliceOtherRow(page.values, slots, valueRow, slot, valueAt, value, other);
    }
  }

  // --- one layer's page table ----------------------------------------------------------

  predicate TableShaped(shape: Shape, table: PageTable) {
    shape.pageTokens > 0 && |table| == shape.PageCount() &&
    forall i | 0 <= i < |table| && table[i].Some? ::
      PageSized(table[i].value, shape.pageTokens, shape.KeyRow(), shape.ValueRow())
  }

  predicate HasPage(shape: Shape, table: PageTable, token: nat)
    requires shape.pageTokens > 0
  {
    PageOf(token, shape.pageTokens) < |table| && table[PageOf(token, shape.pageTokens)].Some?
  }

  function RowIn(shape: Shape, table: PageTable, index: nat, slot: nat): (r: Row)
    requires TableShaped(shape, table) && index < |table| && table[index].Some? && slot < shape.pageTokens
    ensures |r.keys| == shape.KeyRow() && |r.values| == shape.ValueRow()
  {
    PageRow(table[index].value, shape.pageTokens, shape.KeyRow(), shape.ValueRow(), slot)
  }

  function RowAt(shape: Shape, table: PageTable, token: nat): (r: Row)
    requires TableShaped(shape, table) && HasPage(shape, table, token)
    ensures |r.keys| == shape.KeyRow() && |r.values| == shape.ValueRow()
  {
    RowIn(shape, table, PageOf(token, shape.pageTokens), SlotOf(token, shape.pageTokens))
  }

  lemma PageInTable(shape: Shape, token: nat)
    requires shape.Valid() && token < shape.capacity
    ensures PageOf(token, shape.pageTokens) < shape.PageCount()
  {
    var p := shape.pageTokens;
    var n := shape.capacity + p - 1;
    var q := token / p;
    Located(token, p);
    assert token == q * p + token % p;
    assert q * p + p <= n;
    QuotientBelow(n, p, q);
  }

  lemma QuotientBelow(n: nat, p: nat, q: nat)
    requires p > 0 && (q + 1) * p <= n
    ensures q < n / p
  {
    assert n == n / p * p + n % p;
    assert (q + 1) * p < (n / p + 1) * p;
  }

  lemma SameSlot(a: nat, b: nat, p: nat)
    requires p > 0 && PageOf(a, p) == PageOf(b, p)
    ensures SlotOf(a, p) == SlotOf(b, p) <==> a == b
  {
    Located(a, p);
    Located(b, p);
  }

  /** Distinct (token, head, lane) triples of a layer never share a storage cell: equal page
      and equal offset, as the source computes them, mean equal triples. */
  lemma SlotsDoNotAlias(heads: nat, dim: nat, p: nat, t: nat, head: nat, lane: nat, t': nat, head': nat, lane': nat)
    requires p > 0 && head < heads && head' < heads && lane < dim && lane' < dim
    requires t / p == t' / p
    requires ((t % p) * heads + head) * dim + lane == ((t' % p) * heads + head') * dim + lane'
    ensures t == t' && head == head' && lane == lane'
  {
    MixedRadix((t % p) * heads + head, lane, (t' % p) * heads + head', lane', dim);
    MixedRadix(t % p, head, t' % p, head', heads);
    Located(t, p);
    Located(t', p);
  }

  // --- writing -------------------------------------------------------------------------

  /** The offset the source computes, `(slot * heads + head) * dim`, is head `head` of row `slot`. */
  lemma HeadOffset(heads: nat, dim: nat, slot: nat, head: nat)
    ensures (slot * heads + head) * dim == Times(slot, Times(heads, dim)) + Times(head, dim)
  {
    TimesIsProduct(slot, heads);
    TimesIsProduct(Times(slot, heads) + head, dim);
    TimesAdd(Times(slot, heads), head, dim);
    TimesNested(slot, heads, dim);
  }

  lemma HeadFits(shape: Shape, head: nat)
    requires head < shape.heads
    ensures Times(head, shape.keyDim) + shape.keyDim <= shape.KeyRow()
    ensures Times(head, shape.valueDim) + shape.valueDim <= shape.ValueRow()
  {
    RowFits(head, shape.heads, shape.keyDim);
    RowFits(head, shape.heads, shape.valueDim);
  }

  function PutRow(shape: Shape, row: Row, head: nat, key: seq<F32>, value: seq<F32>): Row
    requires |row.keys| == shape.KeyRow() && |row.values| == shape.ValueRow() && head < shape.heads
    requires |key| == shape.keyDim && |value| == shape.valueDim
  {
    HeadFits(shape, head);
    Row(Splice(row.keys, Times(head, shape.keyDim), key), Splice(row.values, Times(head, shape.valueDim), value))
  }

  /** The two `copy_from_slice` calls for one slot and head. */
  function PutHeadIn(shape: Shape, table: PageTable, index: nat, slot: nat, head: nat, key: seq<F32>,
                     value: seq<F32>): (r: PageTable)
    requires TableShaped(shape, table) && index < |table| && table[index].Some? && slot < shape.pageTokens
    requires head < shape.heads && |key| == shape.keyDim && |value| == shape.valueDim
    ensures TableShaped(shape, r) && forall i | 0 <= i < |table| :: r[i].Some? == table[i].Some?
  {
    HeadFits(shape, head);
    table[index := Some(PutPage(table[index].value, shape.pageTokens, shape.KeyRow(), shape.ValueRow(), slot,
                                Times(head, shape.keyDim), key, Times(head, shape.valueDim), value))]
  }

  lemma PutHeadInWritesOneRow(shape: Shape, table: PageTable, index: nat, slot: nat, head: nat,
                              key: seq<F32>, value: seq<F32>, index': nat, slot': nat)
    requires TableShaped(shape, table) && index < |table| && table[index].Some? && slot < shape.pageTokens
    requires index' < |table| && table[index'].Some? && slot' < shape.pageTokens
    requires head < shape.heads && |key| == shape.keyDim && |value| == shape.valueDim
    ensures RowIn(shape, PutHeadIn(shape, table, index, slot, head, key, value), index', slot')
         == if index' == index && slot' == slot then PutRow(shape, RowIn(shape, table, index, slot), head, key, value)
            else RowIn(shape, table, index', slot')
  {
    HeadFits(shape, head);
    if index' == index {
      PutPageWritesOneRow(table[index].value, shape.pageTokens, shape.KeyRow(), shape.ValueRow(), slot,
                          Times(head, shape.keyDim), key, Times(head, shape.valueDim), value, slot');
    }
  }

  function PutHead(shape: Shape, table: PageTable, token: nat, head: nat, key: seq<F32>,
                   value: seq<F32>): (r: PageTable)
    requires TableShaped(shape, table) && HasPage(shape, table, token) && head < shape.heads
    requires |key| == shape.keyDim && |value| == shape.valueDim
    ensures TableShaped(shape, r) && forall i | 0 <= i < |table| :: r[i].Some? == table[i].Some?
  {
    PutHeadIn(shape, table, PageOf(token, shape.pageTokens), SlotOf(token, shape.pageTokens), head, key, value)
  }

  lemma PutHeadWritesOneRow(shape: Shape, table: PageTable, token: nat, head: nat, key: seq<F32>, value: seq<F32>,
                            other: nat)
    requires TableShaped(shape, table) && HasPage(shape, table, token) && head < shape.heads
    requires |key| == shape.keyDim && |value| == shape.valueDim
    requires HasPage(shape, table, other)
    ensures RowAt(shape, PutHead(shape, table, token, head, key, value), other)
         == if other == token then PutRow(shape, RowAt(shape, table, token), head, key, value)
            else RowAt(shape, table, other)
  {
    var p := shape.pageTokens;
    PutHeadInWritesOneRow(shape, table, PageOf(token, p), SlotOf(token, p), head, key, value, PageOf(other, p),
                          SlotOf(other, p));
    if PageOf(other, p) == PageOf(token, p) {
      SameSlot(other, token, p);
    }
  }
}
