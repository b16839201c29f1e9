/** Tensor payloads of a GGUF file and the expert slabs inside them ("File Structure" section of
    the GGUF specification). */
module GgufLayout {
  import opened Common
  import opened Alignment

  // --- descriptors ------------------------------------------------------------------------------

  /** A GGML type: elements and bytes per block. */
  datatype GgmlType = GgmlType(block: nat, bytes: nat) {
    predicate Valid() { 0 < block && 0 < bytes }
  }

  datatype TensorError =
    | InvalidRank
    | ZeroDimension
    | NotBlockAligned
    | ArithmeticOverflow
    | OutOfBounds

  function CheckedMul(x: nat, y: nat): Option<nat> {
    if x * y > U64_MAX then None else Some(x * y)
  }

  function CheckedAdd(x: nat, y: nat): Option<nat> {
    if x + y > U64_MAX then None else Some(x + y)
  }

  /** Encoded bytes of one row. */
  function RowSize(ty: GgmlType, ne0: nat): (r: Result<nat, TensorError>)
    requires ty.Valid()
    ensures r == Err(NotBlockAligned) <==> ne0 % ty.block != 0
    ensures r == Err(ArithmeticOverflow) <==> ne0 % ty.block == 0 && ne0 / ty.block * ty.bytes > U64_MAX
    ensures r.Ok? <==> ne0 % ty.block == 0 && ne0 / ty.block * ty.bytes <= U64_MAX
    ensures r.Ok? ==> r.value == ne0 / ty.block * ty.bytes
    ensures r.Ok? && ne0 > 0 ==> r.value > 0
  {
    if ne0 % ty.block != 0 then Err(NotBlockAligned)
    else
      BlocksPositive(ne0, ty.block, ty.bytes);
      match CheckedMul(ne0 / ty.block, ty.bytes)
      case None => Err(ArithmeticOverflow)
      case Some(bytes) => Ok(bytes)
  }

  lemma BlocksPositive(ne0: nat, block: nat, bytes: nat)
    requires 0 < block && 0 < bytes && ne0 % block == 0
    ensures ne0 > 0 ==> ne0 / block * bytes > 0
  {
    var k := ne0 / block;
    assert ne0 == block * k;
    assert k > 0 ==> k * bytes > 0;
  }

  /** dims[1] * ... * dims[k - 1]: the rows that step `k` of a tensor skips. */
  function RowsPer(dims: seq<nat>, k: nat): nat
    requires 1 <= k <= |dims|
  {
    if k == 1 then 1 else RowsPer(dims, k - 1) * dims[k - 1]
  }

  datatype Tensor = Tensor(dims: seq<nat>, ty: GgmlType, offset: nat, strides: seq<nat>) {
    /** What `TensorDesc::new` establishes. */
    ghost predicate Valid() {
      ty.Valid() && 1 <= |dims| <= 4 && offset <= U64_MAX && |strides| == 4 &&
      (forall i | 0 <= i < |dims| :: dims[i] > 0) &&
      RowSize(ty, dims[0]).Ok? &&
      forall k | 1 <= k < |dims| :: strides[k] == RowSize(ty, dims[0]).value * RowsPer(dims, k) <= U64_MAX
    }

    /** The payload: every row of the tensor, one after another. */
    ghost function Payload(): nat
      requires Valid()
    {
      RowSize(ty, dims[0]).value * RowsPer(dims, |dims|)
    }
  }

  /** Shapes that have a descriptor: rank 1 to 4, no empty dimension, whole blocks, no overflow. */
  ghost predicate Describable(dims: seq<nat>, ty: GgmlType)
    requires ty.Valid()
  {
    1 <= |dims| <= 4 && (forall i | 0 <= i < |dims| :: dims[i] > 0) && RowSize(ty, dims[0]).Ok? &&
    forall k | 1 <= k < |dims| :: RowSize(ty, dims[0]).value * RowsPer(dims, k) <= U64_MAX
  }

  method ComputeStrides(dims: seq<nat>, ty: GgmlType) returns (r: Result<seq<nat>, TensorError>)
    requires ty.Valid()
    ensures r.Ok? <==> Describable(dims, ty)
    ensures r.Ok? ==> Tensor(dims, ty, 0, r.value).Valid()
  {
    if !(1 <= |dims| <= 4) {
      return Err(InvalidRank);
    }
    for i := 0 to |dims|
      invariant forall j | 0 <= j < i :: dims[j] > 0
    {
      if dims[i] == 0 {
        return Err(ZeroDimension);
      }
    }
    var row := RowSize(ty, dims[0]);
    if row.Err? {
      return Err(row.error);
    }
    var strides: seq<nat> := [ty.bytes, 0, 0, 0];
    if |dims| == 1 {
      return Ok(strides);
    }
    strides := strides[1 := row.value];
    for k := 2 to |dims|
      invariant |strides| == 4
      invariant forall j | 1 <= j < k :: strides[j] == row.value * RowsPer(dims, j) <= U64_MAX
    {
      var stride := CheckedMul(strides[k - 1], dims[k - 1]);
      ProductRegroups(row.value, RowsPer(dims, k - 1), dims[k - 1]);
      if stride == None {
        assert row.value * RowsPer(dims, k) > U64_MAX;
        return Err(ArithmeticOverflow);
      }
      strides := strides[k := stride.value];
    }
    r := Ok(strides);
  }

  lemma ProductRegroups(x: nat, y: nat, z: nat)
    ensures x * y * z == x * (y * z)
  {}

  method NewTensor(dims: seq<nat>, ty: GgmlType, offset: nat) returns (r: Result<Tensor, TensorError>)
    requires ty.Valid() && offset <= U64_MAX
    ensures r.Ok? <==> Describable(dims, ty)
    ensures r.Ok? ==> r.value.Valid() && r.value.dims == dims && r.value.ty == ty && r.value.offset == offset
  {
    var strides := ComputeStrides(dims, ty);
    r := match strides
      case Err(error) => Err(error)
      case Ok(s) => Ok(Tensor(dims, ty, offset, s));
  }

  /** The encoded length is the payload unless it overflows. */
  method EncodedBytes(t: Tensor) returns (r: Option<nat>)
    requires t.Valid()
    ensures r == if t.Payload() > U64_MAX then None else Some(t.Payload())
  {
    if |t.dims| == 1 {
      return Some(RowSize(t.ty, t.dims[0]).value);
    }
    var last := |t.dims| - 1;
    ProductRegroups(RowSize(t.ty, t.dims[0]).value, RowsPer(t.dims, last), t.dims[last]);
    r := CheckedMul(t.strides[last], t.dims[last]);
  }

  // --- the extents of a file -----------------------------------------------------------------------

  datatype Range = Range(start: nat, end: nat)

  predicate RangeFits(t: nat, bytes: nat, dataOffset: nat, fileLen: nat) {
    dataOffset + t + bytes <= U64_MAX && dataOffset + t + bytes <= fileLen
  }

  method CheckedAbsoluteRange(t: Tensor, dataOffset: nat, fileLen: nat) returns (r: Option<Range>)
    requires t.Valid()
    ensures r == if RangeFits(t.offset, t.Payload(), dataOffset, fileLen)
                 then Some(Range(dataOffset + t.offset, dataOffset + t.offset + t.Payload())) else None
  {
    var start := CheckedAdd(dataOffset, t.offset);
    if start == None {
      return None;
    }
    var bytes := EncodedBytes(t);
    if bytes == None {
      return None;
    }
    var end := CheckedAdd(start.value, bytes.value);
    if end == None || end.value > fileLen {
      return None;
    }
    r := Some(Range(start.value, end.value));
  }

  ghost predicate AllValid(ts: seq<Tensor>) {
    forall i | 0 <= i < |ts| :: ts[i].Valid()
  }

  /** Where the padded payloads of the first `n` tensors end; `None` on overflow. */
  ghost function Extent(ts: seq<Tensor>, alignment: nat, n: nat): Option<nat>
    requires AllValid(ts) && PowerOfTwo(alignment) && n <= |ts|
  {
    if n == 0 then Some(0)
    else match (Extent(ts, alignment, n - 1), AlignUp(ts[n - 1].Payload(), alignment))
      case (Some(before), Some(padded)) => CheckedAdd(before, padded)
      case _ => None
  }

  /** A directory the reader accepts: tensors follow each other without gaps but padding, and the
      padded data section lies inside the file. */
  ghost predicate Accepted(ts: seq<Tensor>, dataOffset: nat, fileLen: nat, alignment: nat)
    requires AllValid(ts) && PowerOfTwo(alignment)
  {
    (forall i | 0 <= i < |ts| :: Placed(ts, dataOffset, fileLen, alignment, i)) &&
    Extent(ts, alignment, |ts|).Some? && dataOffset + Extent(ts, alignment, |ts|).value <= U64_MAX &&
    dataOffset + Extent(ts, alignment, |ts|).value <= fileLen
  }

  ghost predicate Placed(ts: seq<Tensor>, dataOffset: nat, fileLen: nat, alignment: nat, i: nat)
    requires AllValid(ts) && PowerOfTwo(alignment) && i < |ts|
  {
    Extent(ts, alignment, i) == Some(ts[i].offset) && Extent(ts, alignment, i + 1).Some? &&
    RangeFits(ts[i].offset, ts[i].Payload(), dataOffset, fileLen)
  }

  /** The tensor-extent loop of the reader. */
  method CheckExtents(ts: seq<Tensor>, dataOffset: nat, fileLen: nat, alignment: nat) returns (ok: bool)
    requires AllValid(ts) && PowerOfTwo(alignment)
    ensures ok == Accepted(ts, dataOffset, fileLen, alignment)
  {
    var extent := 0;
    for i := 0 to |ts|
      invariant Extent(ts, alignment, i) == Some(extent)
      invariant forall j | 0 <= j < i :: Placed(ts, dataOffset, fileLen, alignment, j)
    {
      var next := PlaceOne(ts, dataOffset, fileLen, alignment, i, extent);
      if next == None {
        return false;
      }
      extent := next.value;
    }
    ok := dataOffset + extent <= U64_MAX && dataOffset + extent <= fileLen;
  }

  method PlaceOne(ts: seq<Tensor>, dataOffset: nat, fileLen: nat, alignment: nat, i: nat, extent: nat)
    returns (next: Option<nat>)
    requires AllValid(ts) && PowerOfTwo(alignment) && i < |ts| && Extent(ts, alignment, i) == Some(extent)
    ensures next.Some? <==> Placed(ts, dataOffset, fileLen, alignment, i)
    ensures next.Some? ==> next == Extent(ts, alignment, i + 1)
  {
    if ts[i].offset != extent {
      return None;
    }
    var bytes := EncodedBytes(ts[i]);
    if bytes == None {
      assert AlignUp(ts[i].Payload(), alignment) == None;
      return None;
    }
    var padded := AlignUp(bytes.value, alignment);
    if padded == None {
      return None;
    }
    next := CheckedAdd(extent, padded.value);
    if next == None {
      return;
    }
    var range := CheckedAbsoluteRange(ts[i], dataOffset, fileLen);
    if range == None {
      return None;
    }
  }

  ghost function RangeOf(t: Tensor, dataOffset: nat): Range
    requires t.Valid()
  {
    Range(dataOffset + t.offset, dataOffset + t.offset + t.Payload())
  }

  lemma {:induction false} ExtentAligned(ts: seq<Tensor>, alignment: nat, n: nat)
    requires AllValid(ts) && PowerOfTwo(alignment) && n <= |ts| && Extent(ts, alignment, n).Some?
    ensures Multiple(Extent(ts, alignment, n).value, alignment)
  {
    if n == 0 {
      MultipleZero(alignment);
    } else {
      var before, padded := ExtentStep(ts, alignment, n);
      ExtentAligned(ts, alignment, n - 1);
      MultipleAdd(before, padded, alignment);
    }
  }

  lemma ExtentStep(ts: seq<Tensor>, alignment: nat, n: nat) returns (before: nat, padded: nat)
    requires AllValid(ts) && PowerOfTwo(alignment) && 0 < n <= |ts| && Extent(ts, alignment, n).Some?
    ensures Extent(ts, alignment, n - 1) == Some(before) && Multiple(padded, alignment) && ts[n - 1].Payload() <= padded
    ensures Extent(ts, alignment, n) == Some(before + padded)
  {
    before, padded := Extent(ts, alignment, n - 1).value, AlignUp(ts[n - 1].Payload(), alignment).value;
  }

  lemma {:induction false} ExtentGrows(ts: seq<Tensor>, alignment: nat, m: nat, n: nat)
    requires AllValid(ts) && PowerOfTwo(alignment) && m <= n <= |ts| && Extent(ts, alignment, n).Some?
    ensures Extent(ts, alignment, m).Some? && Extent(ts, alignment, m).value <= Extent(ts, alignment, n).value
  {
    if m < n {
      ExtentGrows(ts, alignment, m, n - 1);
    }
  }

  /** Rows are never empty, so neither is a payload. */
  lemma PayloadPositive(t: Tensor)
    requires t.Valid()
    ensures t.Payload() > 0
  {
    RowsPositive(t.dims, |t.dims|);
    Positive(RowSize(t.ty, t.dims[0]).value, RowsPer(t.dims, |t.dims|));
  }

  lemma Positive(x: nat, y: nat)
    requires x > 0 && y > 0
    ensures x * y > 0
  {}

  lemma {:induction false} RowsPositive(dims: seq<nat>, k: nat)
    requires 1 <= k <= |dims| && forall i | 0 <= i < |dims| :: dims[i] > 0
    ensures RowsPer(dims, k) > 0
  {
    if k > 1 {
      RowsPositive(dims, k - 1);
      Positive(RowsPer(dims, k - 1), dims[k - 1]);
    }
  }

  /** In an accepted file every payload range is aligned, not empty and inside the data section of
      the file. `directoryEnd` is where the data offset was rounded up from. */
  lemma PayloadInside(ts: seq<Tensor>, directoryEnd: nat, fileLen: nat, alignment: nat, i: nat)
    requires AllValid(ts) && PowerOfTwo(alignment) && AlignUp(directoryEnd, alignment).Some? && i < |ts|
    requires Accepted(ts, AlignUp(directoryEnd, alignment).value, fileLen, alignment)
    ensures var r := RangeOf(ts[i], AlignUp(directoryEnd, alignment).value);
            Multiple(r.start, alignment) && directoryEnd <= r.start < r.end <= fileLen
  {
    var dataOffset := AlignUp(directoryEnd, alignment).value;
    StartAligned(ts, dataOffset, fileLen, alignment, i);
    PayloadPositive(ts[i]);
  }

  lemma StartAligned(ts: seq<Tensor>, dataOffset: nat, fileLen: nat, alignment: nat, i: nat)
    requires AllValid(ts) && PowerOfTwo(alignment) && i < |ts| && Accepted(ts, dataOffset, fileLen, alignment)
    requires Multiple(dataOffset, alignment)
    ensures Multiple(dataOffset + ts[i].offset, alignment) && dataOffset + ts[i].offset + ts[i].Payload() <= fileLen
  {
    assert Placed(ts, dataOffset, fileLen, alignment, i);
    ExtentAligned(ts, alignment, i);
    MultipleAdd(dataOffset, ts[i].offset, alignment);
  }

  /** ... and ranges come in directory order without overlap. */
  lemma PayloadsDisjoint(ts: seq<Tensor>, dataOffset: nat, fileLen: nat, alignment: nat, i: nat, j: nat)
    requires AllValid(ts) && PowerOfTwo(alignment) && i < j < |ts| && Accepted(ts, dataOffset, fileLen, alignment)
    ensures RangeOf(ts[i], dataOffset).end <= RangeOf(ts[j], dataOffset).start
  {
    assert Placed(ts, dataOffset, fileLen, alignment, i) && Placed(ts, dataOffset, fileLen, alignment, j);
    ExtentGrows(ts, alignment, i + 1, j);
  }

  // --- expert slabs ---------------------------------------------------------------------------------

  datatype SlabError =
    | TensorRank
    | ExpertDimension
    | ExpertIndexOutOfRange
    | ExpertPayloadNotDivisible
    | Arithmetic

  function CheckedExpertSlab(dims: seq<nat>, payload: nat, count: nat, expert: nat): Result<Range, SlabError> {
    if |dims| != 3 then Err(TensorRank)
    else if dims[2] != count then Err(ExpertDimension)
    else if expert >= count then Err(ExpertIndexOutOfRange)
    else if count == 0 || payload % count != 0 then Err(ExpertPayloadNotDivisible)
    else
      var bytes := payload / count;
      match CheckedMul(expert, bytes)
      case None => Err(Arithmetic)
      case Some(start) =>
        match CheckedAdd(start, bytes)
        case None => Err(Arithmetic)
        case Some(end) => if end > payload then Err(Arithmetic) else Ok(Range(start, end))
  }

  lemma DivideExactly(bytes: nat, count: nat)
    requires count > 0
    ensures (bytes * count) % count == 0 && bytes * count / count == bytes
  {
    Remainder(bytes * count, count, bytes, 0);
  }

  lemma SlabFits(expert: nat, count: nat, bytes: nat)
    requires expert < count
    ensures 0 <= expert * bytes && expert * bytes + bytes <= count * bytes == bytes * count
  {
    assert (expert + 1) * bytes <= count * bytes;
  }

  /** Every expert of a rank-3 tensor whose last dimension is the expert count has a slab: the
      divisibility and arithmetic errors cannot happen. Slab `e` is exactly the rows of expert `e`. */
  lemma SlabExists(t: Tensor, count: nat, expert: nat)
    requires t.Valid() && |t.dims| == 3 && t.dims[2] == count && t.Payload() <= U64_MAX && expert < count
    ensures var bytes := t.strides[2];
            bytes > 0 && t.Payload() == bytes * count &&
            CheckedExpertSlab(t.dims, t.Payload(), count, expert) == Ok(Range(expert * bytes, expert * bytes + bytes))
  {
    var bytes := t.strides[2];
    ProductRegroups(RowSize(t.ty, t.dims[0]).value, RowsPer(t.dims, 2), t.dims[2]);
    assert t.Payload() == bytes * count;
    RowsPositive(t.dims, 2);
    Positive(RowSize(t.ty, t.dims[0]).value, RowsPer(t.dims, 2));
    DivideExactly(bytes, count);
    SlabFits(expert, count, bytes);
  }

  /** Slabs are equal, not empty and disjoint ... */
  lemma SlabsDisjoint(t: Tensor, count: nat, e: nat, f: nat)
    requires t.Valid() && |t.dims| == 3 && t.dims[2] == count && t.Payload() <= U64_MAX && e < f < count
    ensures var a := CheckedExpertSlab(t.dims, t.Payload(), count, e);
            var b := CheckedExpertSlab(t.dims, t.Payload(), count, f);
            a.Ok? && b.Ok? && a.value.start < a.value.end <= b.value.start &&
            a.value.end - a.value.start == b.value.end - b.value.start
  {
    SlabExists(t, count, e);
    SlabExists(t, count, f);
    SlabFits(e, f, t.strides[2]);
  }

  /** ... and every byte of the payload is in one of them. */
  lemma SlabsCover(t: Tensor, count: nat, at: nat) returns (expert: nat)
    requires t.Valid() && |t.dims| == 3 && t.dims[2] == count && t.Payload() <= U64_MAX && at < t.Payload()
    ensures expert < count
    ensures var slab := CheckedExpertSlab(t.dims, t.Payload(), count, expert);
            slab.Ok? && slab.value.start <= at < slab.value.end
  {
    SlabExists(t, count, 0);
    var bytes := t.strides[2];
    expert := Locate(at, bytes, count);
    SlabExists(t, count, expert);
  }

  lemma Locate(at: nat, bytes: nat, count: nat) returns (expert: nat)
    requires bytes > 0 && at < bytes * count
    ensures expert < count && expert * bytes <= at < expert * bytes + bytes
  {
    expert := at / bytes;
    assert at == bytes * expert + at % bytes;
    assert expert >= count ==> bytes * expert >= bytes * count;
  }
}
