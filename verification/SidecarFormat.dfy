/** The expert sidecar: header, manifest and reads through the manifest. */
module SidecarFormat {
  import opened Common
  import opened Alignment

  datatype Layout = Sequential | FusedGateUp

  datatype Key = Key(layer: nat, expert: nat)

  /** Keys are ordered by layer, then by expert. */
  predicate Less(a: Key, b: Key) {
    a.layer < b.layer || (a.layer == b.layer && a.expert < b.expert)
  }

  datatype Segment = Segment(offset: nat, length: nat, ty: string) {
    function End(): nat { offset + length }
  }

  datatype Record = Record(key: Key, offset: nat, length: nat, gate: Segment, up: Segment, down: Segment) {
    function End(): nat { offset + length }
  }

  datatype SourceFile = SourceFile(ordinal: nat, path: string, length: nat, sha256: string)

  datatype Manifest = Manifest(
    format: string,
    version: nat,
    quantAbi: nat,
    alignment: nat,
    layout: Layout,
    sources: seq<SourceFile>,
    directorySha256: string,
    length: nat,
    sha256: string,
    records: seq<Record>)

  const FORMAT: string := "lightbridge-expert-sidecar"
  const VERSION: nat := 1
  const QUANT_ABI: nat := 1
  const HEADER_BYTES: nat := 64

  /** 64 lower-case hexadecimal digits. */
  predicate IsSha256(s: string) {
    |s| == 64 && forall i | 0 <= i < 64 :: '0' <= s[i] <= '9' || 'a' <= s[i] <= 'f'
  }

  // --- validation -----------------------------------------------------------------------------------

  predicate Inside(s: Segment, r: Record) {
    0 < s.length && r.offset <= s.offset && s.End() <= r.End()
  }

  predicate SegmentsOk(r: Record, layout: Layout, alignment: nat)
    requires PowerOfTwo(alignment)
  {
    r.End() <= U64_MAX && r.gate.End() <= U64_MAX && r.up.End() <= U64_MAX && r.down.End() <= U64_MAX &&
    Inside(r.gate, r) && Inside(r.up, r) && Inside(r.down, r) &&
    r.gate.End() <= r.up.offset && r.up.End() <= r.down.offset &&
    match layout
    case Sequential =>
      Multiple(r.gate.offset, alignment) && Multiple(r.up.offset, alignment) && Multiple(r.down.offset, alignment)
    case FusedGateUp =>
      r.gate.offset == r.offset && r.up.offset == r.gate.End() && Multiple(r.down.offset, alignment)
  }

  predicate RecordOk(m: Manifest, previous: Option<Key>, minimum: nat, r: Record)
    requires PowerOfTwo(m.alignment)
  {
    (previous.Some? ==> Less(previous.value, r.key)) && Multiple(r.offset, m.alignment) && r.End() <= U64_MAX &&
    minimum <= r.offset && r.End() <= m.length && SegmentsOk(r, m.layout, m.alignment)
  }

  function PreviousKey(m: Manifest, i: nat): Option<Key>
    requires i <= |m.records|
  {
    if i == 0 then None else Some(m.records[i - 1].key)
  }

  function PreviousEnd(m: Manifest, i: nat): nat
    requires i <= |m.records| && PowerOfTwo(m.alignment) && AlignUp(HEADER_BYTES, m.alignment).Some?
  {
    if i == 0 then AlignUp(HEADER_BYTES, m.alignment).value else m.records[i - 1].End()
  }

  /** What a manifest says of itself: its format, its digests and the files it was made from. */
  predicate IdentityOk(m: Manifest) {
    m.format == FORMAT && m.version == VERSION && m.quantAbi == QUANT_ABI &&
    IsSha256(m.directorySha256) && IsSha256(m.sha256) && FilesOk(m.sources)
  }

  predicate FilesOk(sources: seq<SourceFile>) {
    sources != [] && forall i | 0 <= i < |sources| :: FileOk(sources, i)
  }

  predicate FileOk(sources: seq<SourceFile>, i: nat)
    requires i < |sources|
  {
    sources[i].ordinal == i && IsSha256(sources[i].sha256)
  }

  predicate HeaderOk(m: Manifest) {
    32 <= m.alignment && PowerOfTwo(m.alignment) && HEADER_BYTES <= m.length && AlignUp(HEADER_BYTES, m.alignment).Some?
  }

  predicate RecordAt(m: Manifest, i: nat)
    requires HeaderOk(m) && i < |m.records|
  {
    RecordOk(m, PreviousKey(m, i), PreviousEnd(m, i), m.records[i])
  }

  ghost predicate Validates(m: Manifest) {
    IdentityOk(m) && HeaderOk(m) && forall i: nat | i < |m.records| :: RecordAt(m, i)
  }

  method ValidateSources(sources: seq<SourceFile>) returns (ok: bool)
    ensures ok == FilesOk(sources)
  {
    if |sources| == 0 {
      return false;
    }
    for i := 0 to |sources|
      invariant forall j: nat | j < i :: FileOk(sources, j)
    {
      if sources[i].ordinal != i || !IsSha256(sources[i].sha256) {
        assert !FileOk(sources, i);
        return false;
      }
    }
    ok := true;
  }

  method Validate(m: Manifest) returns (ok: bool)
    ensures ok == Validates(m)
  {
    if m.format != FORMAT || m.version != VERSION || m.quantAbi != QUANT_ABI {
      return false;
    }
    if m.alignment < 32 || !PowerOfTwo(m.alignment) {
      return false;
    }
    if !IsSha256(m.directorySha256) || !IsSha256(m.sha256) || m.length < HEADER_BYTES {
      return false;
    }
    var known := ValidateSources(m.sources);
    if !known {
      return false;
    }
    ok := ValidateRecords(m);
  }

  method ValidateRecords(m: Manifest) returns (ok: bool)
    requires 32 <= m.alignment && PowerOfTwo(m.alignment) && HEADER_BYTES <= m.length
    ensures ok <==> HeaderOk(m) && forall i: nat | i < |m.records| :: RecordAt(m, i)
  {
    var start := CheckedAlignUp(HEADER_BYTES, m.alignment);
    if start.Err? {
      return false;
    }
    var previous, minimum := None, start.value;
    for i := 0 to |m.records|
      invariant previous == PreviousKey(m, i) && minimum == PreviousEnd(m, i)
      invariant forall j: nat | j < i :: RecordAt(m, j)
    {
      if !RecordOk(m, previous, minimum, m.records[i]) {
        assert !RecordAt(m, i);
        return false;
      }
      previous, minimum := Some(m.records[i].key), m.records[i].End();
    }
    ok := true;
  }

  /** Records of a valid manifest have increasing keys and do not overlap. */
  lemma {:induction false} RecordsInOrder(m: Manifest, i: nat, j: nat)
    requires Validates(m) && i < j < |m.records|
    ensures Less(m.records[i].key, m.records[j].key) && m.records[i].End() <= m.records[j].offset
    decreases j
  {
    assert RecordAt(m, j);
    if i < j - 1 {
      RecordsInOrder(m, i, j - 1);
    }
  }

  /** What a valid manifest promises a reader of any record, in plain arithmetic. */
  lemma ValidRecord(m: Manifest, i: nat)
    requires Validates(m) && i < |m.records|
    ensures var r := m.records[i];
            HEADER_BYTES <= r.offset && r.offset + r.length <= m.length && r.offset % m.alignment == 0 &&
            0 < r.gate.length && 0 < r.up.length && 0 < r.down.length &&
            r.offset <= r.gate.offset && r.gate.offset + r.gate.length <= r.up.offset &&
            r.up.offset + r.up.length <= r.down.offset && r.down.offset + r.down.length <= r.offset + r.length &&
            r.down.offset % m.alignment == 0 &&
            if m.layout == Sequential then r.gate.offset % m.alignment == 0 && r.up.offset % m.alignment == 0
            else r.gate.offset == r.offset && r.up.offset == r.gate.offset + r.gate.length
  {
    var r := m.records[i];
    assert RecordAt(m, i);
    MultipleIsRemainder(r.offset, m.alignment);
    MultipleIsRemainder(r.gate.offset, m.alignment);
    MultipleIsRemainder(r.up.offset, m.alignment);
    MultipleIsRemainder(r.down.offset, m.alignment);
    BehindHeader(m, i);
  }

  lemma {:induction false} BehindHeader(m: Manifest, i: nat)
    requires Validates(m) && i < |m.records|
    ensures HEADER_BYTES <= m.records[i].offset
    decreases i
  {
    assert RecordAt(m, i);
    if i > 0 {
      BehindHeader(m, i - 1);
    }
  }

  // --- header ------------------------------------------------------------------------------------------

  datatype Header = Header(version: nat, layout: Layout, alignment: nat, records: nat) {
    predicate Fits() {
      version < 0x1_0000_0000 && alignment <= U64_MAX && records <= U64_MAX
    }
  }

  datatype HeaderError =
    | HeaderLength
    | BadMagic
    | NonZeroReserved
    | UnknownLayout

  /** "LIGHTBRIDGE.EXP" and a zero byte */
  const MAGIC: seq<byte> := [76, 73, 71, 72, 84, 66, 82, 73, 68, 71, 69, 46, 69, 88, 80, 0]

  function Code(layout: Layout): nat {
    if layout.Sequential? then 0 else 1
  }

  function Encode(h: Header): (r: seq<byte>)
    ensures |r| == HEADER_BYTES
  {
    MAGIC + Le(h.version, 4) + Le(Code(h.layout), 4) + Le(h.alignment, 8) + Le(h.records, 8) + Zeros(24, 0)
  }

  function Decode(b: seq<byte>): Result<Header, HeaderError> {
    if |b| != HEADER_BYTES then Err(HeaderLength)
    else if b[..16] != MAGIC then Err(BadMagic)
    else if b[40..] != Zeros(24, 0) then Err(NonZeroReserved)
    else
      var code := FromLe(b[20..24]);
      if code > 1 then Err(UnknownLayout)
      else
        var layout := if code == 0 then Sequential else FusedGateUp;
        Ok(Header(FromLe(b[16..20]), layout, FromLe(b[24..32]), FromLe(b[32..40])))
  }

  /** The pieces of an encoded header. */
  lemma Pieces(a: seq<byte>, b: seq<byte>, c: seq<byte>, d: seq<byte>, e: seq<byte>, f: seq<byte>)
    requires |a| == 16 && |b| == 4 && |c| == 4 && |d| == 8 && |e| == 8 && |f| == 24
    ensures var all := a + b + c + d + e + f;
            all[..16] == a && all[16..20] == b && all[20..24] == c && all[24..32] == d && all[32..40] == e &&
            all[40..] == f
  {}

  /** Where the fields of a header are. */
  lemma HeaderLayout(h: Header)
    ensures var b := Encode(h);
            b[..16] == [76, 73, 71, 72, 84, 66, 82, 73, 68, 71, 69, 46, 69, 88, 80, 0] &&
            b[16..20] == Le(h.version, 4) &&
            b[20..24] == Le(if h.layout == Sequential then 0 else 1, 4) &&
            b[24..32] == Le(h.alignment, 8) && b[32..40] == Le(h.records, 8) &&
            forall i | 40 <= i < 64 :: b[i] == 0
  {
    Pieces(MAGIC, Le(h.version, 4), Le(Code(h.layout), 4), Le(h.alignment, 8), Le(h.records, 8), Zeros(24, 0));
    assert forall i | 40 <= i < 64 :: Encode(h)[i] == Encode(h)[40..][i - 40];
  }

  lemma HeaderRoundTrip(h: Header)
    requires h.Fits()
    ensures Decode(Encode(h)) == Ok(h)
  {
    Pieces(MAGIC, Le(h.version, 4), Le(Code(h.layout), 4), Le(h.alignment, 8), Le(h.records, 8), Zeros(24, 0));
    Pow256Values();
    LeRoundTrip(h.version, 4);
    LeRoundTrip(Code(h.layout), 4);
    LeRoundTrip(h.alignment, 8);
    LeRoundTrip(h.records, 8);
  }

  lemma Rejoin(b: seq<byte>)
    requires |b| == 64
    ensures b == b[..16] + b[16..20] + b[20..24] + b[24..32] + b[32..40] + b[40..]
  {}

  /** Only one byte string decodes to a header. */
  lemma HeaderIsCanonical(b: seq<byte>)
    requires Decode(b).Ok?
    ensures Encode(Decode(b).value) == b && Decode(b).value.Fits()
  {
    Pow256Values();
    FromLeRoundTrip(b[16..20]);
    FromLeRoundTrip(b[20..24]);
    FromLeRoundTrip(b[24..32]);
    FromLeRoundTrip(b[32..40]);
    Rejoin(b);
  }

  // --- reading ---------------------------------------------------------------------------------------------

  /** The payload of an expert. */
  datatype Parts = Parts(gate: seq<byte>, up: seq<byte>, down: seq<byte>)

  /** The index of the record with a key, as the binary search over ordered keys finds it. */
  function Find(keys: seq<Key>, key: Key): (r: Option<nat>)
    ensures r.Some? ==> r.value < |keys| && keys[r.value] == key
    ensures r == None ==> key !in keys
  {
    if keys == [] then None
    else if keys[|keys| - 1] == key then Some(|keys| - 1)
    else Find(keys[..|keys| - 1], key)
  }

  ghost predicate Ordered(keys: seq<Key>) {
    forall i, j | 0 <= i < j < |keys| :: Less(keys[i], keys[j])
  }

  lemma FindOrdered(keys: seq<Key>, i: nat)
    requires Ordered(keys) && i < |keys|
    ensures Find(keys, keys[i]) == Some(i)
  {
    var r := Find(keys, keys[i]);
    assert keys[i] in keys;
  }

  function RecordKeys(records: seq<Record>): (r: seq<Key>)
    ensures |r| == |records| && forall i | 0 <= i < |r| :: r[i] == records[i].key
  {
    seq(|records|, i requires 0 <= i < |records| => records[i].key)
  }

  function Cut(data: seq<byte>, offset: nat, length: nat): Option<seq<byte>> {
    if offset + length <= U64_MAX && offset + length <= |data| then Some(data[offset..offset + length]) else None
  }

  /** A segment, cut out of the bytes of its record. */
  function Relative(bytes: seq<byte>, r: Record, s: Segment): Option<seq<byte>> {
    if s.offset < r.offset then None else Cut(bytes, s.offset - r.offset, s.length)
  }

  function ReadRecord(data: seq<byte>, r: Record): Option<Parts> {
    match Cut(data, r.offset, r.length)
    case None => None
    case Some(bytes) =>
      match (Relative(bytes, r, r.gate), Relative(bytes, r, r.up), Relative(bytes, r, r.down))
      case (Some(gate), Some(up), Some(down)) => Some(Parts(gate, up, down))
      case _ => None
  }

  /** Reading an expert through the manifest. */
  function ReadExpert(data: seq<byte>, m: Manifest, key: Key): Option<Parts> {
    match Find(RecordKeys(m.records), key)
    case None => None
    case Some(i) => ReadRecord(data, m.records[i])
  }

  /** What opening a sidecar checks. */
  ghost predicate Opens(data: seq<byte>, m: Manifest) {
    Validates(m) && |data| == m.length &&
    Decode(data[..HEADER_BYTES]) == Ok(Header(m.version, m.layout, m.alignment, |m.records|))
  }
}
