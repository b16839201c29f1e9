/** Preparing a sidecar: experts are copied out of GGUF tensors into aligned records. */
module SidecarPrepare {
  import opened Common
  import opened Alignment
  import opened SidecarFormat
  import opened SidecarBinding
  import GgufLayout

  // --- the direct index ------------------------------------------------------------------------------

  /** A tensor of a validated model: the shard that holds it and where its payload starts there. */
  datatype Located = Located(shard: nat, start: nat, tensor: GgufLayout.Tensor, ty: string)

  datatype MoeLayer = MoeLayer(gate: Located, up: Located, down: Located)

  /** The shards of a model, its routed tensors (those of layer `l` at index `l - 1`) and its
      expert count. */
  datatype Model = Model(shards: seq<Shard>, layers: seq<MoeLayer>, experts: nat) {
    ghost predicate Holds(t: Located) {
      t.tensor.Valid() && |t.tensor.dims| == 3 && t.tensor.dims[2] == experts && t.shard < |shards| &&
      t.start + t.tensor.Payload() <= |shards[t.shard].bytes| && |shards[t.shard].bytes| <= U64_MAX
    }

    ghost predicate Valid() {
      forall l | 0 <= l < |layers| :: Holds(layers[l].gate) && Holds(layers[l].up) && Holds(layers[l].down)
    }
  }

  datatype Source = Source(shard: nat, start: nat, end: nat, ty: string)

  datatype DirectRecord = DirectRecord(key: Key, gate: Source, up: Source, down: Source)

  /** The slab of one expert, as absolute positions in its shard. */
  function Slab(t: Located, expert: nat): Source
    requires |t.tensor.strides| == 4
  {
    var bytes := t.tensor.strides[2];
    Source(t.shard, t.start + expert * bytes, t.start + expert * bytes + bytes, t.ty)
  }

  /** `source_segment` never fails on a validated model. */
  method SourceSegment(m: Model, t: Located, expert: nat) returns (r: Option<Source>)
    requires m.Holds(t) && expert < m.experts
    ensures r == Some(Slab(t, expert))
  {
    GgufLayout.SlabExists(t.tensor, m.experts, expert);
    GgufLayout.SlabFits(expert, m.experts, t.tensor.strides[2]);
    var bytes := GgufLayout.EncodedBytes(t.tensor);
    if bytes == None {
      return None;
    }
    var slab := GgufLayout.CheckedExpertSlab(t.tensor.dims, bytes.value, m.experts, expert);
    if slab.Err? {
      return None;
    }
    var start, end := GgufLayout.CheckedAdd(t.start, slab.value.start), GgufLayout.CheckedAdd(t.start, slab.value.end);
    if start == None || end == None {
      return None;
    }
    r := Some(Source(t.shard, start.value, end.value, t.ty));
  }

  /** Segments lie inside their shard and are not empty. */
  ghost predicate SourceOk(m: Model, s: Source) {
    s.shard < |m.shards| && s.start < s.end <= |m.shards[s.shard].bytes| <= U64_MAX
  }

  function Bytes(m: Model, s: Source): Option<seq<byte>> {
    if s.shard < |m.shards| && s.start <= s.end <= |m.shards[s.shard].bytes|
    then Some(m.shards[s.shard].bytes[s.start..s.end])
    else None
  }

  lemma SlabOk(m: Model, t: Located, expert: nat)
    requires m.Holds(t) && expert < m.experts
    ensures SourceOk(m, Slab(t, expert))
  {
    GgufLayout.SlabExists(t.tensor, m.experts, expert);
    GgufLayout.SlabFits(expert, m.experts, t.tensor.strides[2]);
  }

  ghost predicate RecordIs(m: Model, r: DirectRecord, layer: nat, expert: nat)
    requires m.Valid() && layer < |m.layers|
  {
    r == DirectRecord(Key(layer + 1, expert), Slab(m.layers[layer].gate, expert), Slab(m.layers[layer].up, expert),
                      Slab(m.layers[layer].down, expert))
  }

  /** All records of an index are those of an expert of the model and in key order. */
  ghost predicate IndexOk(m: Model, records: seq<DirectRecord>) {
    m.Valid() && Ordered(Keys(records)) && forall i | 0 <= i < |records| :: RecordFrom(m, records[i])
  }

  ghost predicate RecordFrom(m: Model, r: DirectRecord)
    requires m.Valid()
  {
    1 <= r.key.layer <= |m.layers| && r.key.expert < m.experts && RecordIs(m, r, r.key.layer - 1, r.key.expert)
  }

  function Keys(records: seq<DirectRecord>): (r: seq<Key>)
    ensures |r| == |records| && forall i | 0 <= i < |r| :: r[i] == records[i].key
  {
    seq(|records|, i requires 0 <= i < |records| => records[i].key)
  }

  /** Every expert below the given key has a record. */
  ghost predicate Complete(m: Model, records: seq<DirectRecord>, bound: Key) {
    forall layer, expert | 1 <= layer <= |m.layers| && 0 <= expert < m.experts && Less(Key(layer, expert), bound) ::
      Key(layer, expert) in Keys(records)
  }

  ghost predicate AllBelow(records: seq<DirectRecord>, bound: Key) {
    forall i | 0 <= i < |records| :: Less(records[i].key, bound)
  }

  method BuildIndex(m: Model) returns (records: seq<DirectRecord>)
    requires m.Valid()
    ensures IndexOk(m, records)
    ensures forall layer, expert | 1 <= layer <= |m.layers| && 0 <= expert < m.experts ::
              Key(layer, expert) in Keys(records)
  {
    records := [];
    for layer := 0 to |m.layers|
      invariant IndexOk(m, records) && AllBelow(records, Key(layer + 1, 0)) && Complete(m, records, Key(layer + 1, 0))
    {
      for expert := 0 to m.experts
        invariant IndexOk(m, records) && AllBelow(records, Key(layer + 1, expert)) &&
                  Complete(m, records, Key(layer + 1, expert))
      {
        var gate := SourceSegment(m, m.layers[layer].gate, expert);
        var up := SourceSegment(m, m.layers[layer].up, expert);
        var down := SourceSegment(m, m.layers[layer].down, expert);
        var record := DirectRecord(Key(layer + 1, expert), gate.value, up.value, down.value);
        PushRecord(m, records, record, layer, expert);
        records := records + [record];
      }
      NextLayer(m, records, layer);
    }
  }

  lemma PushRecord(m: Model, records: seq<DirectRecord>, record: DirectRecord, layer: nat, expert: nat)
    requires m.Valid() && IndexOk(m, records) && layer < |m.layers| && expert < m.experts &&
             RecordIs(m, record, layer, expert)
    requires AllBelow(records, Key(layer + 1, expert)) && Complete(m, records, Key(layer + 1, expert))
    ensures IndexOk(m, records + [record])
    ensures AllBelow(records + [record], Key(layer + 1, expert + 1)) &&
            Complete(m, records + [record], Key(layer + 1, expert + 1))
  {
    PushComplete(m, records, record, layer, expert);
    PushOrdered(records, record);
    PushFrom(m, records, record);
  }

  lemma PushFrom(m: Model, records: seq<DirectRecord>, record: DirectRecord)
    requires m.Valid() && (forall i | 0 <= i < |records| :: RecordFrom(m, records[i])) && RecordFrom(m, record)
    ensures forall i | 0 <= i < |records + [record]| :: RecordFrom(m, (records + [record])[i])
  {
    forall i | 0 <= i < |records + [record]| ensures RecordFrom(m, (records + [record])[i]) {
      if i < |records| {
        assert RecordFrom(m, records[i]);
      }
    }
  }

  lemma PushOrdered(records: seq<DirectRecord>, record: DirectRecord)
    requires Ordered(Keys(records)) && AllBelow(records, record.key)
    ensures Ordered(Keys(records + [record]))
  {
    PushedKeys(records, record);
  }

  lemma PushComplete(m: Model, records: seq<DirectRecord>, record: DirectRecord, layer: nat, expert: nat)
    requires Complete(m, records, Key(layer + 1, expert)) && record.key == Key(layer + 1, expert)
    ensures Complete(m, records + [record], Key(layer + 1, expert + 1))
  {
    var keys := Keys(records + [record]);
    PushedKeys(records, record);
    forall l, e | 1 <= l <= |m.layers| && 0 <= e < m.experts && Less(Key(l, e), Key(layer + 1, expert + 1))
      ensures Key(l, e) in keys
    {
      if Less(Key(l, e), Key(layer + 1, expert)) {
        assert Key(l, e) in Keys(records);
      } else {
        assert keys[|records|] == Key(l, e);
      }
    }
  }

  lemma PushedKeys(records: seq<DirectRecord>, record: DirectRecord)
    ensures Keys(records + [record]) == Keys(records) + [record.key]
  {}

  lemma NextLayer(m: Model, records: seq<DirectRecord>, layer: nat)
    requires m.Valid() && AllBelow(records, Key(layer + 1, m.experts)) &&
             Complete(m, records, Key(layer + 1, m.experts))
    ensures AllBelow(records, Key(layer + 2, 0)) && Complete(m, records, Key(layer + 2, 0))
  {
    forall l, e | 1 <= l <= |m.layers| && 0 <= e < m.experts && Less(Key(l, e), Key(layer + 2, 0))
      ensures Key(l, e) in Keys(records)
    {
      assert Less(Key(l, e), Key(layer + 1, m.experts));
    }
  }

  /** Reading an expert directly out of the shards. */
  function DirectRead(m: Model, records: seq<DirectRecord>, key: Key): Option<Parts> {
    match Find(Keys(records), key)
    case None => None
    case Some(i) => ReadSources(m, records[i])
  }

  function ReadSources(m: Model, r: DirectRecord): Option<Parts> {
    match (Bytes(m, r.gate), Bytes(m, r.up), Bytes(m, r.down))
    case (Some(gate), Some(up), Some(down)) => Some(Parts(gate, up, down))
    case _ => None
  }

  // --- where records go -------------------------------------------------------------------------------

  datatype Place = Place(start: nat, up: nat, down: nat, rawEnd: nat, end: nat)

  /** The positions of a record written at `position`, without regard to overflow. */
  ghost function PlaceRecord(layout: Layout, a: nat, position: nat, gate: nat, up: nat, down: nat): (r: Place)
    requires PowerOfTwo(a)
    ensures position <= r.start && r.start + gate <= r.up && r.up + up <= r.down && r.down + down == r.rawEnd <= r.end
    ensures Multiple(r.start, a) && Multiple(r.down, a) && Multiple(r.end, a)
    ensures if layout.Sequential? then Multiple(r.up, a) else r.up == r.start + gate
  {
    var start := RoundUp(position, a);
    var upAt := if layout.Sequential? then RoundUp(start + gate, a) else start + gate;
    var downAt := RoundUp(upAt + up, a);
    Place(start, upAt, downAt, downAt + down, RoundUp(downAt + down, a))
  }

  function Length(s: Source): nat {
    if s.start <= s.end then s.end - s.start else 0
  }

  ghost function PlaceOf(layout: Layout, a: nat, position: nat, r: DirectRecord): Place
    requires PowerOfTwo(a)
  {
    PlaceRecord(layout, a, position, Length(r.gate), Length(r.up), Length(r.down))
  }

  /** Where the data ends after the header and the first `n` records. */
  ghost function EndAfter(layout: Layout, a: nat, records: seq<DirectRecord>, n: nat): nat
    requires PowerOfTwo(a) && n <= |records|
  {
    if n == 0 then RoundUp(HEADER_BYTES, a)
    else PlaceOf(layout, a, EndAfter(layout, a, records, n - 1), records[n - 1]).end
  }

  /** No position of record `i` overflows 64 bits, padding included. */
  ghost predicate RecordFits(layout: Layout, a: nat, records: seq<DirectRecord>, i: nat)
    requires PowerOfTwo(a) && i < |records|
  {
    PlaceOf(layout, a, EndAfter(layout, a, records, i), records[i]).rawEnd + a - 1 <= U64_MAX
  }

  ghost predicate AllFit(layout: Layout, a: nat, records: seq<DirectRecord>, n: nat)
    requires PowerOfTwo(a) && n <= |records|
  {
    HEADER_BYTES + a - 1 <= U64_MAX && forall i: nat | i < n :: RecordFits(layout, a, records, i)
  }

  /** The manifest record of a placed expert. */
  function RecordAtPlace(r: DirectRecord, p: Place): Record
    requires p.start <= p.end
  {
    Record(r.key, p.start, p.end - p.start, Segment(p.start, Length(r.gate), r.gate.ty),
           Segment(p.up, Length(r.up), r.up.ty), Segment(p.down, Length(r.down), r.down.ty))
  }

  // --- writing ------------------------------------------------------------------------------------------

  function ZeroBytes(n: nat): (r: seq<byte>)
    ensures |r| == n
  {
    Zeros(n, 0)
  }

  /** The padding loop: zeros in chunks of at most 8192 bytes. */
  method Pad(output: seq<byte>, a: nat) returns (padded: Option<seq<byte>>)
    requires PowerOfTwo(a)
    ensures padded.Some? <==> |output| + a - 1 <= U64_MAX
    ensures padded.Some? ==> padded.value == output + ZeroBytes(RoundUp(|output|, a) - |output|)
  {
    var aligned := AlignUp(|output|, a);
    if aligned == None {
      return None;
    }
    var remaining := aligned.value - |output|;
    var result := output;
    assert output + ZeroBytes(0) == output;
    while remaining > 0
      invariant 0 <= remaining && |output| <= |result| && |result| + remaining == aligned.value
      invariant result == output + ZeroBytes(|result| - |output|)
    {
      var length := if remaining < 8192 then remaining else 8192;
      MoreZeros(output, |result| - |output|, length);
      result := result + ZeroBytes(length);
      remaining := remaining - length;
    }
    padded := Some(result);
  }

  lemma MoreZeros(output: seq<byte>, m: nat, n: nat)
    ensures output + ZeroBytes(m) + ZeroBytes(n) == output + ZeroBytes(m + n)
  {}

  /** `data` continues `output`. */
  ghost predicate Extends(output: seq<byte>, data: seq<byte>) {
    |output| <= |data| && data[..|output|] == output
  }

  ghost predicate Has(data: seq<byte>, at: nat, bytes: seq<byte>) {
    at + |bytes| <= |data| && data[at..at + |bytes|] == bytes
  }

  lemma HasStays(output: seq<byte>, data: seq<byte>, at: nat, bytes: seq<byte>)
    requires Extends(output, data) && Has(output, at, bytes)
    ensures Has(data, at, bytes)
  {
    assert data[at..at + |bytes|] == data[..|output|][at..at + |bytes|];
  }

  lemma ExtendsChain(a: seq<byte>, b: seq<byte>, c: seq<byte>)
    requires Extends(a, b) && Extends(b, c)
    ensures Extends(a, c)
  {
    assert c[..|a|] == c[..|b|][..|a|];
  }

  ghost function At(position: nat, a: nat, pad: bool): nat
    requires PowerOfTwo(a)
  {
    if pad then RoundUp(position, a) else position
  }

  /** One segment, padded in front when asked to. */
  method PadAndCopy(m: Model, output: seq<byte>, a: nat, pad: bool, s: Source)
    returns (next: Option<seq<byte>>, segment: Segment)
    requires PowerOfTwo(a) && SourceOk(m, s)
    ensures next.Some? <==> (pad ==> |output| + a - 1 <= U64_MAX) && At(|output|, a, pad) + Length(s) <= U64_MAX
    ensures next.Some? ==> |next.value| == At(|output|, a, pad) + Length(s) && Extends(output, next.value) &&
                           Has(next.value, At(|output|, a, pad), Bytes(m, s).value) &&
                           segment == Segment(At(|output|, a, pad), Length(s), s.ty)
  {
    segment := Segment(0, 0, "");
    var padded := Some(output);
    if pad {
      padded := Pad(output, a);
      if padded == None {
        return None, segment;
      }
    }
    var bytes := Bytes(m, s).value;
    if |padded.value| + |bytes| > U64_MAX {
      return None, segment;
    }
    next, segment := Some(padded.value + bytes), Segment(|padded.value|, |bytes|, s.ty);
    Appended(output, padded.value, bytes);
  }

  lemma Appended(output: seq<byte>, padded: seq<byte>, bytes: seq<byte>)
    requires Extends(output, padded)
    ensures Extends(output, padded + bytes) && Has(padded + bytes, |padded|, bytes)
  {
    assert (padded + bytes)[..|output|] == padded[..|output|];
  }

  /** What a written record looks like. */
  ghost predicate Written(m: Model, data: seq<byte>, r: DirectRecord, p: Place)
    requires SourceOk(m, r.gate) && SourceOk(m, r.up) && SourceOk(m, r.down)
  {
    p.end <= |data| && Has(data, p.start, Bytes(m, r.gate).value) && Has(data, p.up, Bytes(m, r.up).value) &&
    Has(data, p.down, Bytes(m, r.down).value)
  }

  /** Gate, up and down of one expert, each behind its padding, and its manifest record. */
  method WriteRecord(m: Model, layout: Layout, a: nat, output: seq<byte>, r: DirectRecord)
    returns (next: Option<(seq<byte>, Record)>)
    requires PowerOfTwo(a) && SourceOk(m, r.gate) && SourceOk(m, r.up) && SourceOk(m, r.down)
    ensures next.Some? <==> PlaceOf(layout, a, |output|, r).rawEnd + a - 1 <= U64_MAX
    ensures next.Some? ==> |next.value.0| == PlaceOf(layout, a, |output|, r).end && Extends(output, next.value.0) &&
                           Written(m, next.value.0, r, PlaceOf(layout, a, |output|, r)) &&
                           next.value.1 == RecordAtPlace(r, PlaceOf(layout, a, |output|, r))
  {
    var up, gateSegment, upSegment := WriteGateUp(m, layout, a, output, r, PlaceOf(layout, a, |output|, r));
    if up == None {
      return None;
    }
    var down, downSegment := WriteDown(m, layout, a, up.value, r, PlaceOf(layout, a, |output|, r));
    if down == None {
      return None;
    }
    KeepAll(m, output, up.value, down.value, r, PlaceOf(layout, a, |output|, r));
    var start := gateSegment.offset;
    next := Some((down.value, Record(r.key, start, |down.value| - start, gateSegment, upSegment, downSegment)));
  }

  method WriteGateUp(m: Model, layout: Layout, a: nat, output: seq<byte>, r: DirectRecord, ghost p: Place)
    returns (next: Option<seq<byte>>, gateSegment: Segment, upSegment: Segment)
    requires PowerOfTwo(a) && SourceOk(m, r.gate) && SourceOk(m, r.up)
    requires p.start == RoundUp(|output|, a) && p.up == At(p.start + Length(r.gate), a, layout.Sequential?)
    requires p.up + Length(r.up) <= p.rawEnd
    ensures next == None ==> p.rawEnd + a - 1 > U64_MAX
    ensures next.Some? ==> |next.value| == p.up + Length(r.up) && Extends(output, next.value)
    ensures next.Some? ==>
              Has(next.value, p.start, Bytes(m, r.gate).value) && Has(next.value, p.up, Bytes(m, r.up).value)
    ensures next.Some? ==> gateSegment == Segment(p.start, Length(r.gate), r.gate.ty) &&
                           upSegment == Segment(p.up, Length(r.up), r.up.ty)
  {
    var gate;
    gate, gateSegment := PadAndCopy(m, output, a, true, r.gate);
    if gate == None {
      return None, gateSegment, gateSegment;
    }
    next, upSegment := PadAndCopy(m, gate.value, a, layout.Sequential?, r.up);
    if next.Some? {
      KeepGate(m, output, gate.value, next.value, r.gate, p.start);
    }
  }

  lemma KeepGate(m: Model, output: seq<byte>, gate: seq<byte>, next: seq<byte>, s: Source, at: nat)
    requires SourceOk(m, s) && Extends(output, gate) && Extends(gate, next) && Has(gate, at, Bytes(m, s).value)
    ensures Extends(output, next) && Has(next, at, Bytes(m, s).value)
  {
    ExtendsChain(output, gate, next);
    HasStays(gate, next, at, Bytes(m, s).value);
  }

  method WriteDown(m: Model, layout: Layout, a: nat, output: seq<byte>, r: DirectRecord, ghost p: Place)
    returns (next: Option<seq<byte>>, segment: Segment)
    requires PowerOfTwo(a) && SourceOk(m, r.down) && |output| == p.up + Length(r.up)
    requires p.down == RoundUp(|output|, a) && p.rawEnd == p.down + Length(r.down) && p.end == RoundUp(p.rawEnd, a)
    ensures next.Some? <==> p.rawEnd + a - 1 <= U64_MAX
    ensures next.Some? ==>
              |next.value| == p.end && Extends(output, next.value) && Has(next.value, p.down, Bytes(m, r.down).value) &&
                           segment == Segment(p.down, Length(r.down), r.down.ty)
  {
    var down;
    down, segment := PadAndCopy(m, output, a, true, r.down);
    if down == None {
      return None, segment;
    }
    next := Pad(down.value, a);
    if next.Some? {
      Appended(down.value, down.value, ZeroBytes(RoundUp(|down.value|, a) - |down.value|));
      ExtendsChain(output, down.value, next.value);
      HasStays(down.value, next.value, p.down, Bytes(m, r.down).value);
    }
  }

  lemma KeepAll(m: Model, output: seq<byte>, up: seq<byte>, next: seq<byte>, r: DirectRecord, p: Place)
    requires SourceOk(m, r.gate) && SourceOk(m, r.up) && SourceOk(m, r.down)
    requires Extends(output, up) && Extends(up, next) && p.end == |next|
    requires Has(up, p.start, Bytes(m, r.gate).value) && Has(up, p.up, Bytes(m, r.up).value) &&
             Has(next, p.down, Bytes(m, r.down).value)
    ensures Extends(output, next) && Written(m, next, r, p)
  {
    ExtendsChain(output, up, next);
    HasStays(up, next, p.start, Bytes(m, r.gate).value);
    HasStays(up, next, p.up, Bytes(m, r.up).value);
  }
}
