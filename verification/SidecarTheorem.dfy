/** Preparing a sidecar preserves meaning: its manifest is valid, and an expert read through it
    is the expert read directly. */
module SidecarTheorem {
  import opened Common
  import opened Alignment
  import opened SidecarFormat
  import opened SidecarBinding
  import opened SidecarPrepare
  import GgufLayout

  ghost function PlaceFor(layout: Layout, a: nat, index: seq<DirectRecord>, i: nat): Place
    requires PowerOfTwo(a) && i < |index|
  {
    PlaceOf(layout, a, EndAfter(layout, a, index, i), index[i])
  }

  /** The record the write loop pushes for expert `i`. */
  ghost function RecordFor(layout: Layout, a: nat, index: seq<DirectRecord>, i: nat): Record
    requires PowerOfTwo(a) && i < |index|
  {
    RecordAtPlace(index[i], PlaceFor(layout, a, index, i))
  }

  ghost predicate SourcesOk(m: Model, index: seq<DirectRecord>) {
    forall i | 0 <= i < |index| :: SourceOk(m, index[i].gate) && SourceOk(m, index[i].up) && SourceOk(m, index[i].down)
  }

  lemma IndexSources(m: Model, index: seq<DirectRecord>)
    requires IndexOk(m, index)
    ensures SourcesOk(m, index)
  {
    forall i | 0 <= i < |index|
      ensures SourceOk(m, index[i].gate) && SourceOk(m, index[i].up) && SourceOk(m, index[i].down)
    {
      assert RecordFrom(m, index[i]);
      var layer, expert := m.layers[index[i].key.layer - 1], index[i].key.expert;
      SlabOk(m, layer.gate, expert);
      SlabOk(m, layer.up, expert);
      SlabOk(m, layer.down, expert);
    }
  }

  ghost predicate RecordsAre(layout: Layout, a: nat, index: seq<DirectRecord>, n: nat, records: seq<Record>)
    requires PowerOfTwo(a) && n <= |index|
  {
    |records| == n && forall i: nat | i < n :: RecordIsAt(layout, a, index, records, i)
  }

  ghost predicate RecordIsAt(layout: Layout, a: nat, index: seq<DirectRecord>, records: seq<Record>, i: nat)
    requires PowerOfTwo(a) && i < |index| && i < |records|
  {
    records[i] == RecordFor(layout, a, index, i)
  }

  ghost predicate WrittenAt(m: Model, layout: Layout, a: nat, index: seq<DirectRecord>, output: seq<byte>, i: nat)
    requires PowerOfTwo(a) && i < |index| && SourcesOk(m, index)
  {
    Written(m, output, index[i], PlaceFor(layout, a, index, i))
  }

  ghost predicate AllWritten(m: Model, layout: Layout, a: nat, index: seq<DirectRecord>, n: nat, output: seq<byte>)
    requires PowerOfTwo(a) && n <= |index| && SourcesOk(m, index)
  {
    forall i: nat | i < n :: WrittenAt(m, layout, a, index, output, i)
  }

  /** The state of the write loop after `n` records. */
  ghost predicate Progress(m: Model, layout: Layout, a: nat, index: seq<DirectRecord>, n: nat, header: seq<byte>,
                           output: seq<byte>, records: seq<Record>)
    requires PowerOfTwo(a) && n <= |index| && SourcesOk(m, index)
  {
    |output| == EndAfter(layout, a, index, n) && AllFit(layout, a, index, n) && Extends(header, output) &&
    RecordsAre(layout, a, index, n, records) && AllWritten(m, layout, a, index, n, output)
  }

  lemma NextWritten(m: Model, layout: Layout, a: nat, index: seq<DirectRecord>, n: nat, output: seq<byte>,
                    next: seq<byte>)
    requires PowerOfTwo(a) && n < |index| && SourcesOk(m, index) && AllWritten(m, layout, a, index, n, output)
    requires Extends(output, next) && WrittenAt(m, layout, a, index, next, n)
    ensures AllWritten(m, layout, a, index, n + 1, next)
  {
    forall i: nat | i < n ensures WrittenAt(m, layout, a, index, next, i) {
      assert WrittenAt(m, layout, a, index, output, i);
      WrittenStays(m, output, next, index[i], PlaceFor(layout, a, index, i));
    }
  }

  lemma NextRecords(layout: Layout, a: nat, index: seq<DirectRecord>, n: nat, records: seq<Record>)
    requires PowerOfTwo(a) && n < |index| && RecordsAre(layout, a, index, n, records)
    ensures RecordsAre(layout, a, index, n + 1, records + [RecordFor(layout, a, index, n)])
  {
    var next := records + [RecordFor(layout, a, index, n)];
    forall i: nat | i < n + 1 ensures RecordIsAt(layout, a, index, next, i) {
      if i < n {
        assert RecordIsAt(layout, a, index, records, i);
      }
    }
  }

  lemma NextRecord(m: Model, layout: Layout, a: nat, index: seq<DirectRecord>, n: nat, header: seq<byte>,
                   output: seq<byte>, records: seq<Record>, next: seq<byte>)
    requires PowerOfTwo(a) && n < |index| && SourcesOk(m, index) &&
             Progress(m, layout, a, index, n, header, output, records)
    requires RecordFits(layout, a, index, n) && |next| == EndAfter(layout, a, index, n + 1) && Extends(output, next)
    requires WrittenAt(m, layout, a, index, next, n)
    ensures Progress(m, layout, a, index, n + 1, header, next, records + [RecordFor(layout, a, index, n)])
  {
    ExtendsChain(header, output, next);
    NextWritten(m, layout, a, index, n, output, next);
    NextRecords(layout, a, index, n, records);
  }

  lemma WrittenStays(m: Model, output: seq<byte>, next: seq<byte>, r: DirectRecord, p: Place)
    requires SourceOk(m, r.gate) && SourceOk(m, r.up) && SourceOk(m, r.down) && Written(m, output, r, p) &&
             Extends(output, next)
    ensures Written(m, next, r, p)
  {
    HasStays(output, next, p.start, Bytes(m, r.gate).value);
    HasStays(output, next, p.up, Bytes(m, r.up).value);
    HasStays(output, next, p.down, Bytes(m, r.down).value);
  }

  // --- the write loop ------------------------------------------------------------------------------------

  method WriteAll(m: Model, layout: Layout, a: nat, index: seq<DirectRecord>, header: seq<byte>)
    returns (r: Option<(seq<byte>, seq<Record>)>)
    requires PowerOfTwo(a) && SourcesOk(m, index) && |header| == HEADER_BYTES
    ensures r.Some? <==> AllFit(layout, a, index, |index|)
    ensures r.Some? ==> Progress(m, layout, a, index, |index|, header, r.value.0, r.value.1)
  {
    var padded := Pad(header, a);
    if padded == None {
      return None;
    }
    var output, records := padded.value, [];
    Appended(header, header, ZeroBytes(RoundUp(HEADER_BYTES, a) - HEADER_BYTES));
    for n := 0 to |index|
      invariant Progress(m, layout, a, index, n, header, output, records)
    {
      var next := WriteRecord(m, layout, a, output, index[n]);
      if next == None {
        assert !RecordFits(layout, a, index, n);
        return None;
      }
      NextRecord(m, layout, a, index, n, header, output, records, next.value.0);
      output, records := next.value.0, records + [next.value.1];
    }
    r := Some((output, records));
  }

  // --- the manifest is valid -------------------------------------------------------------------------------

  lemma {:induction false} EndsGrow(layout: Layout, a: nat, index: seq<DirectRecord>, i: nat, n: nat)
    requires PowerOfTwo(a) && i <= n <= |index|
    ensures EndAfter(layout, a, index, i) <= EndAfter(layout, a, index, n)
  {
    if i < n {
      EndsGrow(layout, a, index, i, n - 1);
    }
  }

  lemma RecordValid(m: Model, layout: Layout, a: nat, index: seq<DirectRecord>, i: nat)
    requires PowerOfTwo(a) && i < |index| && SourcesOk(m, index) && RecordFits(layout, a, index, i)
    ensures var r := RecordFor(layout, a, index, i);
            SegmentsOk(r, layout, a) && Multiple(r.offset, a) && EndAfter(layout, a, index, i) <= r.offset &&
            r.End() == EndAfter(layout, a, index, i + 1)
  {
    var p := PlaceFor(layout, a, index, i);
    PlacedOk(layout, a, EndAfter(layout, a, index, i), index[i], p);
  }

  lemma PlacedOk(layout: Layout, a: nat, position: nat, r: DirectRecord, p: Place)
    requires PowerOfTwo(a) && p == PlaceOf(layout, a, position, r) && p.rawEnd + a - 1 <= U64_MAX
    requires Length(r.gate) > 0 && Length(r.up) > 0 && Length(r.down) > 0
    ensures SegmentsOk(RecordAtPlace(r, p), layout, a) && position <= p.start
  {}

  /** The manifest of the write loop is valid exactly when its identity is in order and the
      alignment is at least 32: any power of two is accepted before writing, but the manifest check
      asks for more. */
  lemma ManifestValid(m: Model, layout: Layout, a: nat, index: seq<DirectRecord>, manifest: Manifest)
    requires PowerOfTwo(a) && SourcesOk(m, index) && Ordered(Keys(index)) && AllFit(layout, a, index, |index|)
    requires manifest.alignment == a && manifest.layout == layout &&
             manifest.length == EndAfter(layout, a, index, |index|)
    requires RecordsAre(layout, a, index, |index|, manifest.records)
    ensures Validates(manifest) <==> 32 <= a && IdentityOk(manifest)
  {
    if 32 <= a && IdentityOk(manifest) {
      EndsGrow(layout, a, index, 0, |index|);
      forall i: nat | i < |manifest.records| ensures RecordAt(manifest, i) {
        RecordInManifest(m, layout, a, index, manifest, i);
      }
    }
  }

  lemma RecordInManifest(m: Model, layout: Layout, a: nat, index: seq<DirectRecord>, manifest: Manifest, i: nat)
    requires PowerOfTwo(a) && HeaderOk(manifest) && SourcesOk(m, index) && Ordered(Keys(index)) &&
             AllFit(layout, a, index, |index|)
    requires manifest.alignment == a && manifest.layout == layout &&
             manifest.length == EndAfter(layout, a, index, |index|)
    requires RecordsAre(layout, a, index, |index|, manifest.records)
    requires i < |index|
    ensures RecordAt(manifest, i)
  {
    var r := RecordHere(m, layout, a, index, manifest.records, i);
    var minimum := PreviousIs(m, layout, a, index, manifest, i);
    RecordEnds(layout, a, index, manifest, i, r);
    AcceptRecord(manifest, i, r, minimum);
  }

  lemma RecordEnds(layout: Layout, a: nat, index: seq<DirectRecord>, manifest: Manifest, i: nat, r: Record)
    requires PowerOfTwo(a) && i < |index| && manifest.length == EndAfter(layout, a, index, |index|)
    requires r.End() == EndAfter(layout, a, index, i + 1)
    ensures r.End() <= manifest.length
  {
    EndsGrow(layout, a, index, i + 1, |index|);
  }

  lemma AcceptRecord(manifest: Manifest, i: nat, r: Record, minimum: nat)
    requires HeaderOk(manifest) && i < |manifest.records| && r == manifest.records[i] &&
             Multiple(r.offset, manifest.alignment)
    requires PreviousEnd(manifest, i) == minimum <= r.offset && r.End() <= manifest.length
    requires PreviousKey(manifest, i).Some? ==> Less(PreviousKey(manifest, i).value, r.key)
    requires SegmentsOk(r, manifest.layout, manifest.alignment)
    ensures RecordAt(manifest, i)
  {}

  lemma RecordHere(m: Model, layout: Layout, a: nat, index: seq<DirectRecord>, records: seq<Record>, i: nat)
    returns (r: Record)
    requires PowerOfTwo(a) && SourcesOk(m, index) && AllFit(layout, a, index, |index|) &&
             RecordsAre(layout, a, index, |index|, records)
    requires i < |index|
    ensures r == records[i] && r.key == index[i].key && SegmentsOk(r, layout, a) && Multiple(r.offset, a)
    ensures EndAfter(layout, a, index, i) <= r.offset && r.End() == EndAfter(layout, a, index, i + 1)
  {
    r := RecordFor(layout, a, index, i);
    assert RecordIsAt(layout, a, index, records, i) && RecordFits(layout, a, index, i);
    RecordValid(m, layout, a, index, i);
  }

  lemma PreviousIs(m: Model, layout: Layout, a: nat, index: seq<DirectRecord>, manifest: Manifest, i: nat)
    returns (minimum: nat)
    requires PowerOfTwo(a) && HeaderOk(manifest) && manifest.alignment == a && SourcesOk(m, index) &&
             Ordered(Keys(index)) && AllFit(layout, a, index, |index|)
    requires RecordsAre(layout, a, index, |index|, manifest.records)
    requires i < |index|
    ensures PreviousEnd(manifest, i) == minimum == EndAfter(layout, a, index, i)
    ensures PreviousKey(manifest, i).Some? ==> Less(PreviousKey(manifest, i).value, index[i].key)
  {
    if i == 0 {
      minimum := RoundUp(HEADER_BYTES, a);
    } else {
      var previous := RecordHere(m, layout, a, index, manifest.records, i - 1);
      minimum := previous.End();
      KeysRise(index, i);
    }
  }

  lemma KeysRise(index: seq<DirectRecord>, i: nat)
    requires Ordered(Keys(index)) && 0 < i < |index|
    ensures Less(index[i - 1].key, index[i].key)
  {
    assert Less(Keys(index)[i - 1], Keys(index)[i]);
  }

  // --- reading back ------------------------------------------------------------------------------------------

  lemma CutOut(data: seq<byte>, start: nat, end: nat, at: nat, bytes: seq<byte>)
    requires start <= at && at + |bytes| <= end <= |data| && Has(data, at, bytes)
    ensures data[start..end][at - start..at - start + |bytes|] == bytes
  {
    var inner := data[start..end];
    forall i | 0 <= i < |bytes| ensures inner[at - start + i] == bytes[i] {
      assert data[at..at + |bytes|][i] == data[at + i];
    }
  }

  lemma RelativeIs(data: seq<byte>, r: Record, seg: Segment, bytes: seq<byte>)
    requires r.End() <= |data| && r.End() <= U64_MAX && r.offset <= seg.offset && seg.End() <= r.End()
    requires seg.length == |bytes| && Has(data, seg.offset, bytes)
    ensures Relative(data[r.offset..r.End()], r, seg) == Some(bytes)
  {
    CutOut(data, r.offset, r.End(), seg.offset, bytes);
  }

  lemma ReadsBack(m: Model, layout: Layout, a: nat, position: nat, r: DirectRecord, p: Place, data: seq<byte>)
    requires PowerOfTwo(a) && SourceOk(m, r.gate) && SourceOk(m, r.up) && SourceOk(m, r.down)
    requires p == PlaceOf(layout, a, position, r) && p.rawEnd + a - 1 <= U64_MAX && Written(m, data, r, p)
    ensures ReadRecord(data, RecordAtPlace(r, p)) == ReadSources(m, r)
  {
    PlacedOk(layout, a, position, r, p);
    ReadsParts(data, RecordAtPlace(r, p), Bytes(m, r.gate).value, Bytes(m, r.up).value, Bytes(m, r.down).value);
  }

  lemma ReadsParts(data: seq<byte>, record: Record, gate: seq<byte>, up: seq<byte>, down: seq<byte>)
    requires record.End() <= |data| && record.End() <= U64_MAX
    requires Inside(record.gate, record) && Inside(record.up, record) && Inside(record.down, record)
    requires record.gate.length == |gate| && record.up.length == |up| && record.down.length == |down|
    requires Has(data, record.gate.offset, gate) && Has(data, record.up.offset, up) &&
             Has(data, record.down.offset, down)
    ensures ReadRecord(data, record) == Some(Parts(gate, up, down))
  {
    RelativeIs(data, record, record.gate, gate);
    RelativeIs(data, record, record.up, up);
    RelativeIs(data, record, record.down, down);
  }

  lemma SameKeys(layout: Layout, a: nat, index: seq<DirectRecord>, records: seq<Record>)
    requires PowerOfTwo(a) && RecordsAre(layout, a, index, |index|, records)
    ensures RecordKeys(records) == Keys(index)
  {
    forall i: nat | i < |index| ensures RecordKeys(records)[i] == Keys(index)[i] {
      assert RecordIsAt(layout, a, index, records, i);
    }
  }

  lemma SameReads(m: Model, layout: Layout, a: nat, index: seq<DirectRecord>, header: seq<byte>, data: seq<byte>,
                  manifest: Manifest, key: Key)
    requires PowerOfTwo(a) && SourcesOk(m, index) &&
             Progress(m, layout, a, index, |index|, header, data, manifest.records)
    ensures ReadExpert(data, manifest, key) == DirectRead(m, index, key)
  {
    SameKeys(layout, a, index, manifest.records);
    var found := Find(Keys(index), key);
    if found.Some? {
      var i := found.value;
      assert RecordFits(layout, a, index, i) && WrittenAt(m, layout, a, index, data, i);
      assert RecordIsAt(layout, a, index, manifest.records, i);
      ReadsBack(m, layout, a, EndAfter(layout, a, index, i), index[i], PlaceFor(layout, a, index, i), data);
    }
  }

  /** When preparing a sidecar succeeds: the options are acceptable, there are shards and their
      lengths add up, and no position of the output overflows 64 bits. */
  ghost predicate Prepares(m: Model, layout: Layout, a: nat, chunk: nat, index: seq<DirectRecord>) {
    PowerOfTwo(a) && 32 <= a && ChunkOk(chunk) &&
    0 < |m.shards| <= MAX_ORDINAL + 1 && TotalBytes(m.shards, |m.shards|) <= U64_MAX &&
    |index| <= U64_MAX && AllFit(layout, a, index, |index|)
  }

  /** Preparing a sidecar. When it succeeds the sidecar opens, carries the digest of its data, is
      bound to the shards it was made from, and reads every key, present or not, as the direct
      store does. */
  method PrepareSidecar(m: Model, layout: Layout, a: nat, digest: Digest, directory: Hex, chunk: nat)
    returns (r: Option<(seq<byte>, Manifest)>, index: seq<DirectRecord>)
    requires m.Valid()
    ensures IndexOk(m, index)
    ensures forall layer, expert | 1 <= layer <= |m.layers| && 0 <= expert < m.experts ::
              Key(layer, expert) in Keys(index)
    ensures r.Some? <==> Prepares(m, layout, a, chunk, index)
    ensures r.Some? ==> Opens(r.value.0, r.value.1) && r.value.1.sha256 == digest(r.value.0)
    ensures r.Some? ==> BoundTo(digest, m.shards, directory, r.value.1)
    ensures r.Some? ==> Serves(m, index, r.value.0, r.value.1) && ServesPayloads(m, r.value.0, r.value.1)
    ensures r.Some? ==> Describes(m, r.value.1)
  {
    index := BuildIndex(m);
    if CheckedAlignUp(0, a) == Err(InvalidAlignment) {
      return None, index;
    }
    var sources := HashFiles(digest, m.shards, chunk);
    if sources == None {
      return None, index;
    }
    var total := SumLengths(digest, m.shards, sources.value);
    if total == None || |index| > U64_MAX {
      return None, index;
    }
    r := WriteSidecar(m, layout, a, digest, directory, index, sources.value);
    if r.Some? {
      PayloadsServed(m, index, r.value.0, r.value.1);
      RecordsDescribe(m, layout, a, index, r.value.1);
    }
  }

  /** Every key reads the same through the sidecar as out of the shards. */
  ghost predicate Serves(m: Model, index: seq<DirectRecord>, data: seq<byte>, manifest: Manifest) {
    forall key :: ReadExpert(data, manifest, key) == DirectRead(m, index, key)
  }

  /** Every record names an expert of the model and gives type and length of its three segments. */
  ghost predicate Describes(m: Model, manifest: Manifest)
    requires m.Valid()
  {
    forall i | 0 <= i < |manifest.records| :: RecordDescribes(m, manifest.records[i])
  }

  ghost predicate RecordDescribes(m: Model, r: Record)
    requires m.Valid()
  {
    1 <= r.key.layer <= |m.layers| && r.key.expert < m.experts &&
    var l := m.layers[r.key.layer - 1];
    r.gate.ty == l.gate.ty && r.up.ty == l.up.ty && r.down.ty == l.down.ty &&
    r.gate.length == l.gate.tensor.strides[2] && r.up.length == l.up.tensor.strides[2] &&
    r.down.length == l.down.tensor.strides[2]
  }

  lemma RecordsDescribe(m: Model, layout: Layout, a: nat, index: seq<DirectRecord>, manifest: Manifest)
    requires IndexOk(m, index) && PowerOfTwo(a) && RecordsAre(layout, a, index, |index|, manifest.records)
    ensures Describes(m, manifest)
  {
    forall i: nat | i < |manifest.records| ensures RecordDescribes(m, manifest.records[i]) {
      assert RecordIsAt(layout, a, index, manifest.records, i) && RecordFrom(m, index[i]);
      OneDescribes(m, index[i], PlaceFor(layout, a, index, i));
    }
  }

  lemma OneDescribes(m: Model, r: DirectRecord, p: Place)
    requires m.Valid() && RecordFrom(m, r) && p.start <= p.end
    ensures RecordDescribes(m, RecordAtPlace(r, p))
  {}

  /** The data and its manifest, which is validated before it is published. */
  method WriteSidecar(m: Model, layout: Layout, a: nat, digest: Digest, directory: Hex, index: seq<DirectRecord>,
                      sources: seq<SourceFile>) returns (r: Option<(seq<byte>, Manifest)>)
    requires IndexOk(m, index) && PowerOfTwo(a) && |index| <= U64_MAX && sources == Identities(digest, m.shards)
    ensures r.Some? <==> 32 <= a && m.shards != [] && AllFit(layout, a, index, |index|)
    ensures r.Some? ==> Opens(r.value.0, r.value.1) && r.value.1.sha256 == digest(r.value.0)
    ensures r.Some? ==> r.value.1.sources == sources && r.value.1.directorySha256 == directory
    ensures r.Some? ==> Serves(m, index, r.value.0, r.value.1)
    ensures r.Some? ==> RecordsAre(layout, a, index, |index|, r.value.1.records)
  {
    IndexSources(m, index);
    var header := Encode(Header(VERSION, layout, a, |index|));
    var written := WriteAll(m, layout, a, index, header);
    if written == None {
      return None;
    }
    var (data, records) := written.value;
    var manifest := Manifest(FORMAT, VERSION, QUANT_ABI, a, layout, sources, directory, |data|, digest(data), records);
    ManifestValid(m, layout, a, index, manifest);
    var valid := Validate(manifest);
    if !valid {
      return None;
    }
    SidecarOpens(header, data, manifest);
    SidecarServes(m, layout, a, index, header, data, manifest);
    r := Some((data, manifest));
  }

  lemma SidecarServes(m: Model, layout: Layout, a: nat, index: seq<DirectRecord>, header: seq<byte>, data: seq<byte>,
                      manifest: Manifest)
    requires PowerOfTwo(a) && SourcesOk(m, index) &&
             Progress(m, layout, a, index, |index|, header, data, manifest.records)
    ensures Serves(m, index, data, manifest)
  {
    forall key ensures ReadExpert(data, manifest, key) == DirectRead(m, index, key) {
      SameReads(m, layout, a, index, header, data, manifest, key);
    }
  }

  lemma SidecarOpens(header: seq<byte>, data: seq<byte>, manifest: Manifest)
    requires Validates(manifest) && |data| == manifest.length && |manifest.records| <= U64_MAX
    requires header == Encode(Header(VERSION, manifest.layout, manifest.alignment, |manifest.records|))
    requires Extends(header, data)
    ensures Opens(data, manifest)
  {
    HeaderRoundTrip(Header(VERSION, manifest.layout, manifest.alignment, |manifest.records|));
    assert data[..HEADER_BYTES] == header;
  }

  // --- tight payloads --------------------------------------------------------------------------------------------

  /** The tight payload the cache loads: the three segments, each of its expected length. */
  function ReadTight(parts: Option<Parts>, gate: nat, up: nat, down: nat): Option<seq<byte>> {
    match parts
    case None => None
    case Some(p) => if |p.gate| == gate && |p.up| == up && |p.down| == down then Some(p.gate + p.up + p.down) else None
  }

  /** The bytes of one expert in a routed tensor: expert after expert, in equal slabs. */
  ghost predicate SlabOf(m: Model, t: Located, expert: nat, bytes: seq<byte>)
    requires m.Holds(t)
  {
    var stride, start := t.tensor.strides[2], t.start + expert * t.tensor.strides[2];
    start + stride <= |m.shards[t.shard].bytes| && bytes == m.shards[t.shard].bytes[start..start + stride]
  }

  /** A tight payload: the slabs of gate, up and down, one after the other and nothing else. */
  ghost predicate IsPayload(m: Model, layer: nat, expert: nat, payload: seq<byte>)
    requires m.Valid() && 1 <= layer <= |m.layers|
  {
    var l := m.layers[layer - 1];
    var gate, up, down := l.gate.tensor.strides[2], l.up.tensor.strides[2], l.down.tensor.strides[2];
    |payload| == gate + up + down && SlabOf(m, l.gate, expert, payload[..gate]) &&
    SlabOf(m, l.up, expert, payload[gate..gate + up]) && SlabOf(m, l.down, expert, payload[gate + up..])
  }

  /** A tight read with the segment lengths of the layer answers with the payload. */
  ghost predicate ReadsTight(m: Model, layer: nat, expert: nat, parts: Option<Parts>)
    requires m.Valid() && 1 <= layer <= |m.layers|
  {
    var l := m.layers[layer - 1];
    var payload := ReadTight(parts, l.gate.tensor.strides[2], l.up.tensor.strides[2], l.down.tensor.strides[2]);
    payload.Some? && IsPayload(m, layer, expert, payload.value)
  }

  /** For every expert of the model the tight read succeeds with the expert's own bytes. */
  lemma TightRead(m: Model, index: seq<DirectRecord>, layer: nat, expert: nat)
    requires IndexOk(m, index) && 1 <= layer <= |m.layers| && expert < m.experts && Key(layer, expert) in Keys(index)
    ensures ReadsTight(m, layer, expert, DirectRead(m, index, Key(layer, expert)))
  {
    var r := FindExpert(m, index, Key(layer, expert));
    TightRecord(m, r);
  }

  /** Every expert of the model, and no other key, is served with its own bytes. */
  ghost predicate ServesPayloads(m: Model, data: seq<byte>, manifest: Manifest)
    requires m.Valid()
  {
    (forall layer: nat, expert: nat | 1 <= layer <= |m.layers| && expert < m.experts ::
       ReadsTight(m, layer, expert, ReadExpert(data, manifest, Key(layer, expert)))) &&
    forall key | ReadExpert(data, manifest, key).Some? :: 1 <= key.layer <= |m.layers| && key.expert < m.experts
  }

  lemma PayloadsServed(m: Model, index: seq<DirectRecord>, data: seq<byte>, manifest: Manifest)
    requires IndexOk(m, index) && Serves(m, index, data, manifest)
    requires forall layer, expert | 1 <= layer <= |m.layers| && 0 <= expert < m.experts ::
               Key(layer, expert) in Keys(index)
    ensures ServesPayloads(m, data, manifest)
  {
    forall layer: nat, expert: nat | 1 <= layer <= |m.layers| && expert < m.experts
      ensures ReadsTight(m, layer, expert, ReadExpert(data, manifest, Key(layer, expert)))
    {
      TightRead(m, index, layer, expert);
    }
    forall key | ReadExpert(data, manifest, key).Some?
      ensures 1 <= key.layer <= |m.layers| && key.expert < m.experts
    {
      assert DirectRead(m, index, key).Some?;
      assert RecordFrom(m, index[Find(Keys(index), key).value]);
    }
  }

  lemma FindExpert(m: Model, index: seq<DirectRecord>, key: Key) returns (r: DirectRecord)
    requires IndexOk(m, index) && key in Keys(index)
    ensures r.key == key && RecordFrom(m, r) && DirectRead(m, index, key) == ReadSources(m, r)
  {
    var i :| 0 <= i < |index| && Keys(index)[i] == key;
    FindOrdered(Keys(index), i);
    r := index[i];
  }

  lemma TightRecord(m: Model, r: DirectRecord)
    requires m.Valid() && RecordFrom(m, r)
    ensures ReadsTight(m, r.key.layer, r.key.expert, ReadSources(m, r))
  {
    var l := m.layers[r.key.layer - 1];
    var gate := SlabBytes(m, l.gate, r.key.expert);
    var up := SlabBytes(m, l.up, r.key.expert);
    var down := SlabBytes(m, l.down, r.key.expert);
    Thirds(gate, up, down);
  }

  lemma Thirds(a: seq<byte>, b: seq<byte>, c: seq<byte>)
    ensures (a + b + c)[..|a|] == a && (a + b + c)[|a|..|a| + |b|] == b && (a + b + c)[|a| + |b|..] == c
  {}

  lemma SlabBytes(m: Model, t: Located, expert: nat) returns (bytes: seq<byte>)
    requires m.Holds(t) && expert < m.experts
    ensures Bytes(m, Slab(t, expert)) == Some(bytes) && |bytes| == t.tensor.strides[2] && SlabOf(m, t, expert, bytes)
  {
    SlabOk(m, t, expert);
    bytes := Bytes(m, Slab(t, expert)).value;
  }
}
