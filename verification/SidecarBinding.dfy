/** How a sidecar is bound to the files it was made from: the digests it records, and the check
    that files found later are still the same. */
module SidecarBinding {
  import opened Common
  import opened SidecarFormat

  /** A SHA-256 digest as the system prints it. */
  type Hex = s: string | IsSha256(s) witness seq(64, _ => '0')

  /** A digest function; the hasher is fed in pieces and digests their concatenation. */
  type Digest = seq<byte> -> Hex

  const MAX_CHUNK: nat := 64 * 1024 * 1024
  const MAX_ORDINAL: nat := 0xFFFF_FFFF

  /** A shard of the model and where it lies. */
  datatype Shard = Shard(path: string, bytes: seq<byte>)

  predicate ChunkOk(chunk: nat) {
    0 < chunk <= MAX_CHUNK
  }

  /** Hashing a file piece by piece. */
  method HashFile(digest: Digest, bytes: seq<byte>, chunk: nat) returns (sha256: Hex)
    requires ChunkOk(chunk)
    ensures sha256 == digest(bytes)
  {
    var offset, fed := 0, [];
    while offset < |bytes|
      invariant offset <= |bytes| && fed == bytes[..offset]
    {
      var remaining := |bytes| - offset;
      var length := if remaining < chunk then remaining else chunk;
      fed := fed + bytes[offset..offset + length];
      offset := offset + length;
    }
    assert fed == bytes;
    sha256 := digest(fed);
  }

  /** The identity of shard `i`. */
  function Identity(digest: Digest, shards: seq<Shard>, i: nat): SourceFile
    requires i < |shards|
  {
    SourceFile(i, shards[i].path, |shards[i].bytes|, digest(shards[i].bytes))
  }

  function Identities(digest: Digest, shards: seq<Shard>): (r: seq<SourceFile>)
    ensures |r| == |shards| && forall i | 0 <= i < |r| :: r[i] == Identity(digest, shards, i)
    ensures shards != [] ==> FilesOk(r)
  {
    var r := seq(|shards|, i requires 0 <= i < |shards| => Identity(digest, shards, i));
    assert forall i | 0 <= i < |r| :: FileOk(r, i);
    r
  }

  /** `hash_source_files`: ordinals are 32 bits wide. */
  method HashFiles(digest: Digest, shards: seq<Shard>, chunk: nat) returns (r: Option<seq<SourceFile>>)
    ensures r.Some? <==> ChunkOk(chunk) && |shards| <= MAX_ORDINAL + 1
    ensures r.Some? ==> r.value == Identities(digest, shards)
  {
    if !ChunkOk(chunk) {
      return None;
    }
    var sources := [];
    for i := 0 to |shards|
      invariant |sources| == i <= MAX_ORDINAL + 1
      invariant forall j | 0 <= j < i :: sources[j] == Identity(digest, shards, j)
    {
      if i > MAX_ORDINAL {
        return None;
      }
      var sha256 := HashFile(digest, shards[i].bytes, chunk);
      sources := sources + [SourceFile(i, shards[i].path, |shards[i].bytes|, sha256)];
    }
    r := Some(sources);
  }

  function TotalBytes(shards: seq<Shard>, n: nat): nat
    requires n <= |shards|
  {
    if n == 0 then 0 else TotalBytes(shards, n - 1) + |shards[n - 1].bytes|
  }

  lemma {:induction false} TotalGrows(shards: seq<Shard>, n: nat, m: nat)
    requires n <= m <= |shards|
    ensures TotalBytes(shards, n) <= TotalBytes(shards, m)
    decreases m
  {
    if n < m {
      TotalGrows(shards, n, m - 1);
    }
  }

  /** The checked sum of the lengths. */
  method SumLengths(digest: Digest, shards: seq<Shard>, sources: seq<SourceFile>) returns (total: Option<nat>)
    requires sources == Identities(digest, shards)
    ensures total == if TotalBytes(shards, |shards|) <= U64_MAX then Some(TotalBytes(shards, |shards|)) else None
  {
    var sum := 0;
    for i := 0 to |sources|
      invariant sum == TotalBytes(shards, i) <= U64_MAX
    {
      TotalGrows(shards, i + 1, |shards|);
      if sum + sources[i].length > U64_MAX {
        return None;
      }
      sum := sum + sources[i].length;
    }
    total := Some(sum);
  }

  predicate SameFile(expected: SourceFile, actual: SourceFile) {
    expected.ordinal == actual.ordinal && expected.length == actual.length && expected.sha256 == actual.sha256
  }

  /** `verify_source_bindings`: the files are those the manifest was made from as far as number,
      order, lengths and digests tell. Paths may have changed. */
  method VerifyBindings(digest: Digest, shards: seq<Shard>, directory: Hex, m: Manifest, chunk: nat) returns (ok: bool)
    ensures ok <==> ChunkOk(chunk) && |shards| <= MAX_ORDINAL + 1 && BoundTo(digest, shards, directory, m)
  {
    if !ChunkOk(chunk) || directory != m.directorySha256 {
      return false;
    }
    var actual := HashFiles(digest, shards, chunk);
    if actual == None || |actual.value| != |m.sources| {
      return false;
    }
    for i := 0 to |m.sources|
      invariant forall j | 0 <= j < i :: SameFile(m.sources[j], Identity(digest, shards, j))
    {
      if !SameFile(m.sources[i], actual.value[i]) {
        return false;
      }
    }
    ok := true;
  }

  ghost predicate BoundTo(digest: Digest, shards: seq<Shard>, directory: string, m: Manifest) {
    m.directorySha256 == directory && |m.sources| == |shards| &&
    forall i | 0 <= i < |shards| :: SameFile(m.sources[i], Identity(digest, shards, i))
  }

  /** A digest without collisions among the files concerned pins them down completely: two sets of
      files bound to one manifest hold the same bytes. */
  lemma BoundFilesEqual(digest: Digest, before: seq<Shard>, after: seq<Shard>, directory: string, m: Manifest)
    requires BoundTo(digest, before, directory, m) && BoundTo(digest, after, directory, m)
    requires forall i, j | 0 <= i < |before| && 0 <= j < |after| ::
               digest(before[i].bytes) == digest(after[j].bytes) ==> before[i].bytes == after[j].bytes
    ensures |before| == |after| && forall i | 0 <= i < |before| :: before[i].bytes == after[i].bytes
  {
    forall i | 0 <= i < |before| ensures before[i].bytes == after[i].bytes {
      assert SameFile(m.sources[i], Identity(digest, before, i)) && SameFile(m.sources[i], Identity(digest, after, i));
    }
  }
}
