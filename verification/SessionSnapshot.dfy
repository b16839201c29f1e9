/** The chat session snapshot: tokens, logits and a nested KV snapshot under one checksum. */
module SessionSnapshot {
  import opened Common
  import opened KvLayout
  import opened PagedKv
  import opened KvSnapshot
  import opened KvSnapshotIo
  import opened Evaluator

  /** "LBGS0001" */
  const SESSION_MAGIC: seq<byte> := [0x4C, 0x42, 0x47, 0x53, 0x30, 0x30, 0x30, 0x31]

  /** What a snapshot carries. */
  datatype Saved = Saved(history: seq<nat>, logits: seq<F32>, hasLogits: bool, rows: Flat)

  // --- the frame: magic, version, fingerprint, three lengths, flag, reserved bytes -----------

  datatype Frame = Frame(lengths: seq<nat>, hasLogits: bool, rest: seq<byte>)

  function Prologue(fingerprint: Digest): seq<byte> {
    SESSION_MAGIC + Le(1, 4) + fingerprint
  }

  function Flag(hasLogits: bool): seq<byte> {
    [if hasLogits then 1 else 0, 0, 0, 0]
  }

  function FrameBytes(fingerprint: Digest, frame: Frame): seq<byte> {
    Prologue(fingerprint) + (Ints(frame.lengths, 8) + (Flag(frame.hasLogits) + frame.rest))
  }

  function TakeFrame(fingerprint: Digest, body: seq<byte>): Option<Frame> {
    if !(Prologue(fingerprint) <= body) then None
    else match TakeInts(body[|Prologue(fingerprint)|..], 3, 8)
      case None => None
      case Some((lengths, after)) =>
        if |after| < 4 || after[0] > 1 || after[1..4] != [0, 0, 0] then None
        else Some(Frame(lengths, after[0] == 1, after[4..]))
  }

  predicate FrameOk(frame: Frame) {
    |frame.lengths| == 3 && forall i | 0 <= i < 3 :: frame.lengths[i] <= U64_MAX
  }

  lemma TakeFrameOfFrame(fingerprint: Digest, frame: Frame)
    requires FrameOk(frame)
    ensures TakeFrame(fingerprint, FrameBytes(fingerprint, frame)) == Some(frame)
  {
    var after := Flag(frame.hasLogits) + frame.rest;
    SplitConcat(Prologue(fingerprint), Ints(frame.lengths, 8) + after);
    Pow256Values();
    TakeIntsOfInts(frame.lengths, 8, after);
    SplitConcat(Flag(frame.hasLogits), frame.rest);
    assert after[1..4] == Flag(frame.hasLogits)[1..4] == [0, 0, 0];
  }

  lemma TakeFrameIsCanonical(fingerprint: Digest, body: seq<byte>)
    requires TakeFrame(fingerprint, body).Some?
    ensures FrameOk(TakeFrame(fingerprint, body).value)
    ensures body == FrameBytes(fingerprint, TakeFrame(fingerprint, body).value)
  {
    var n := |Prologue(fingerprint)|;
    JoinSlices(body, n);
    var (lengths, after) := TakeInts(body[n..], 3, 8).value;
    LengthsAreCanonical(body[n..], lengths, after);
    FlagIsCanonical(after);
  }

  lemma LengthsAreCanonical(tail: seq<byte>, lengths: seq<nat>, after: seq<byte>)
    requires TakeInts(tail, 3, 8) == Some((lengths, after))
    ensures |lengths| == 3 && (forall i | 0 <= i < 3 :: lengths[i] <= U64_MAX) && tail == Ints(lengths, 8) + after
  {
    TakeIntsIsCanonical(tail, 3, 8);
    Pow256Values();
  }

  lemma FlagIsCanonical(after: seq<byte>)
    requires |after| >= 4 && after[0] <= 1 && after[1..4] == [0, 0, 0]
    ensures after == Flag(after[0] == 1) + after[4..]
  {
    assert after[..4] == [after[0]] + after[1..4] == Flag(after[0] == 1);
    JoinSlices(after, 4);
  }

  // --- the contents -----------------------------------------------------------------------------

  /** Tokens and logits, with what follows them. */
  function TakeContents(vocabulary: nat, n: nat, bytes: seq<byte>): Option<(seq<nat>, seq<F32>, seq<byte>)> {
    match TakeInts(bytes, n, 4)
    case None => None
    case Some((history, after)) =>
      if exists i | 0 <= i < |history| :: history[i] >= vocabulary then None
      else match TakeWords(after, vocabulary)
        case None => None
        case Some((logits, rest)) => if AllFinite(logits) then Some((history, logits, rest)) else None
  }

  function ContentsBytes(history: seq<nat>, logits: seq<F32>, rest: seq<byte>): seq<byte> {
    Ints(history, 4) + (Words(logits) + rest)
  }

  predicate ContentsOk(vocabulary: nat, history: seq<nat>, logits: seq<F32>) {
    (forall i | 0 <= i < |history| :: history[i] < vocabulary) && |logits| == vocabulary && AllFinite(logits)
  }

  lemma TakeContentsOfContents(vocabulary: nat, history: seq<nat>, logits: seq<F32>, rest: seq<byte>)
    requires ContentsOk(vocabulary, history, logits) && vocabulary <= 0x1_0000_0000
    ensures TakeContents(vocabulary, |history|, ContentsBytes(history, logits, rest)) == Some((history, logits, rest))
  {
    Pow256Values();
    TakeIntsOfInts(history, 4, Words(logits) + rest);
    TakeWordsOfWords(logits, rest);
  }

  lemma TakeContentsIsCanonical(vocabulary: nat, n: nat, bytes: seq<byte>)
    requires TakeContents(vocabulary, n, bytes).Some?
    ensures var (history, logits, rest) := TakeContents(vocabulary, n, bytes).value;
            |history| == n && ContentsOk(vocabulary, history, logits) && bytes == ContentsBytes(history, logits, rest)
  {
    TakeIntsIsCanonical(bytes, n, 4);
    TakeWordsIsCanonical(TakeInts(bytes, n, 4).value.1, vocabulary);
  }

  // --- whole snapshots ----------------------------------------------------------------------------

  /** What a session must satisfy to be saved, and what every restored session satisfies. */
  ghost predicate SavedOk(k: Kernels, saved: Saved) {
    ContentsOk(k.vocabulary, saved.history, saved.logits) && |saved.history| <= k.shape.capacity &&
    (saved.hasLogits <==> saved.history != []) &&
    RowsValid(k.shape, saved.rows) && forall l | 0 <= l < |saved.rows| :: |saved.rows[l]| == |saved.history|
  }

  function SavedFrame(k: Kernels, sha: Sha256, fingerprint: Digest, saved: Saved): Frame
    requires LayersSized(k.shape, saved.rows)
  {
    var kv := Encode(sha, k.shape, fingerprint, saved.rows);
    Frame([|saved.history|, |saved.logits|, |kv|], saved.hasLogits, ContentsBytes(saved.history, saved.logits, kv))
  }

  function SessionBody(k: Kernels, sha: Sha256, fingerprint: Digest, saved: Saved): seq<byte>
    requires LayersSized(k.shape, saved.rows)
  {
    FrameBytes(fingerprint, SavedFrame(k, sha, fingerprint, saved))
  }

  function EncodeSession(k: Kernels, sha: Sha256, fingerprint: Digest, saved: Saved): seq<byte>
    requires LayersSized(k.shape, saved.rows)
  {
    SessionBody(k, sha, fingerprint, saved) + sha(SessionBody(k, sha, fingerprint, saved))
  }

  predicate FrameAccepted(k: Kernels, frame: Frame)
    requires |frame.lengths| == 3
  {
    frame.lengths[0] <= k.shape.capacity && frame.lengths[1] == k.vocabulary &&
    frame.hasLogits == (frame.lengths[0] > 0)
  }

  function DecodeFrame(k: Kernels, sha: Sha256, fingerprint: Digest, frame: Frame, maximum: nat): Option<Saved>
    requires |frame.lengths| == 3
  {
    if !FrameAccepted(k, frame) then None
    else match TakeContents(k.vocabulary, frame.lengths[0], frame.rest)
      case None => None
      case Some((history, logits, kv)) =>
        if |kv| != frame.lengths[2] then None
        else DecodeKv(k, sha, fingerprint, history, logits, frame.hasLogits, kv, maximum)
  }

  /** The embedded KV snapshot must hold as many tokens as the history. */
  function DecodeKv(k: Kernels, sha: Sha256, fingerprint: Digest, history: seq<nat>, logits: seq<F32>, hasLogits: bool,
                    kv: seq<byte>, maximum: nat): Option<Saved>
  {
    match Decode(sha, k.shape, fingerprint, kv, maximum, true)
    case None => None
    case Some(rows) =>
      if |rows| > 0 && |rows[0]| == |history| then Some(Saved(history, logits, hasLogits, rows)) else None
  }

  function DecodeSession(k: Kernels, sha: Sha256, fingerprint: Digest, bytes: seq<byte>, maximum: nat): Option<Saved> {
    if maximum == 0 || |bytes| > maximum || |bytes| < 32 then None
    else
      var body := bytes[..|bytes| - 32];
      if sha(body) != bytes[|bytes| - 32..] then None
      else match TakeFrame(fingerprint, body)
        case None => None
        case Some(frame) =>
          TakeFrameIsCanonical(fingerprint, body);
          DecodeFrame(k, sha, fingerprint, frame, maximum)
  }

  lemma UniformRows(shape: Shape, rows: Flat, n: nat)
    requires RowsValid(shape, rows) && shape.layers > 0
    ensures (forall l | 0 <= l < |rows| :: |rows[l]| == n) <==> Uniform(Lengths(rows)) && |rows[0]| == n
  {
    assert forall l | 0 <= l < |rows| :: Lengths(rows)[l] == |rows[l]|;
  }

  lemma DecodeFrameOfSaved(k: Kernels, sha: Sha256, fingerprint: Digest, saved: Saved, maximum: nat)
    requires k.Valid() && SavedOk(k, saved) && k.vocabulary <= 0x1_0000_0000
    requires |Encode(sha, k.shape, fingerprint, saved.rows)| <= maximum
    ensures DecodeFrame(k, sha, fingerprint, SavedFrame(k, sha, fingerprint, saved), maximum) == Some(saved)
  {
    var kv := Encode(sha, k.shape, fingerprint, saved.rows);
    TakeContentsOfContents(k.vocabulary, saved.history, saved.logits, kv);
    UniformRows(k.shape, saved.rows, |saved.history|);
    DecodeOfEncode(sha, k.shape, fingerprint, maximum, true, saved.rows);
  }

  lemma DecodeFrameIsCanonical(k: Kernels, sha: Sha256, fingerprint: Digest, frame: Frame, maximum: nat)
    requires k.Valid() && FrameOk(frame) && DecodeFrame(k, sha, fingerprint, frame, maximum).Some?
    ensures var saved := DecodeFrame(k, sha, fingerprint, frame, maximum).value;
            SavedOk(k, saved) && frame == SavedFrame(k, sha, fingerprint, saved)
  {
    TakeContentsIsCanonical(k.vocabulary, frame.lengths[0], frame.rest);
    var (history, logits, kv) := TakeContents(k.vocabulary, frame.lengths[0], frame.rest).value;
    DecodeIsCanonical(sha, k.shape, fingerprint, kv, maximum, true);
    var rows := Decode(sha, k.shape, fingerprint, kv, maximum, true).value;
    UniformRows(k.shape, rows, |history|);
    assert frame.lengths == [|history|, |logits|, |kv|];
  }

  /** The nested format is canonical too: within the limit, bytes restore to `saved` exactly
      when they are its export. */
  lemma SessionSnapshotIsCanonical(k: Kernels, sha: Sha256, fingerprint: Digest, bytes: seq<byte>, maximum: nat,
                                   saved: Saved)
    requires k.Valid() && k.vocabulary <= 0x1_0000_0000 && maximum <= U64_MAX
    ensures DecodeSession(k, sha, fingerprint, bytes, maximum) == Some(saved) <==>
            |bytes| <= maximum && SavedOk(k, saved) && bytes == EncodeSession(k, sha, fingerprint, saved)
  {
    if DecodeSession(k, sha, fingerprint, bytes, maximum) == Some(saved) {
      SessionCanonical(k, sha, fingerprint, bytes, maximum);
    } else if |bytes| <= maximum && SavedOk(k, saved) {
      if bytes == EncodeSession(k, sha, fingerprint, saved) {
        SessionRoundTrip(k, sha, fingerprint, saved, maximum);
      }
    }
  }

  lemma SessionCanonical(k: Kernels, sha: Sha256, fingerprint: Digest, bytes: seq<byte>, maximum: nat)
    requires k.Valid() && DecodeSession(k, sha, fingerprint, bytes, maximum).Some?
    ensures var saved := DecodeSession(k, sha, fingerprint, bytes, maximum).value;
            SavedOk(k, saved) && bytes == EncodeSession(k, sha, fingerprint, saved)
  {
    var body := bytes[..|bytes| - 32];
    JoinSlices(bytes, |bytes| - 32);
    TakeFrameIsCanonical(fingerprint, body);
    DecodeFrameIsCanonical(k, sha, fingerprint, TakeFrame(fingerprint, body).value, maximum);
  }

  lemma SessionRoundTrip(k: Kernels, sha: Sha256, fingerprint: Digest, saved: Saved, maximum: nat)
    requires k.Valid() && SavedOk(k, saved) && k.vocabulary <= 0x1_0000_0000 && maximum <= U64_MAX
    requires |EncodeSession(k, sha, fingerprint, saved)| <= maximum
    ensures DecodeSession(k, sha, fingerprint, EncodeSession(k, sha, fingerprint, saved), maximum) == Some(saved)
  {
    var frame := SavedFrame(k, sha, fingerprint, saved);
    var body := SessionBody(k, sha, fingerprint, saved);
    var kv := Encode(sha, k.shape, fingerprint, saved.rows);
    SplitConcat(body, sha(body));
    assert |body| == |EncodeSession(k, sha, fingerprint, saved)| - 32;
    KvInside(fingerprint, frame, saved.history, saved.logits, kv);
    TakeFrameOfFrame(fingerprint, frame);
    DecodeFrameOfSaved(k, sha, fingerprint, saved, maximum);
  }

  lemma KvInside(fingerprint: Digest, frame: Frame, history: seq<nat>, logits: seq<F32>, kv: seq<byte>)
    requires frame.rest == ContentsBytes(history, logits, kv)
    ensures |kv| <= |FrameBytes(fingerprint, frame)|
  {}

  // --- sizes ----------------------------------------------------------------------------------------

  function SessionBytes(k: Kernels, saved: Saved): nat {
    8 + 4 + 32 + 8 * 3 + 4 + 32 + 4 * |saved.history| + 4 * |saved.logits| + SnapshotBytes(k.shape, saved.rows)
  }

  lemma EncodeSessionLength(k: Kernels, sha: Sha256, fingerprint: Digest, saved: Saved)
    requires LayersSized(k.shape, saved.rows) && |saved.rows| == k.shape.layers
    ensures |EncodeSession(k, sha, fingerprint, saved)| == SessionBytes(k, saved)
  {
    var frame := SavedFrame(k, sha, fingerprint, saved);
    IntsLength(frame.lengths, 8);
    TimesIsProduct(3, 8);
    IntsLength(saved.history, 4);
    TimesIsProduct(|saved.history|, 4);
    WordsLength(saved.logits);
    EncodeLength(sha, k.shape, fingerprint, saved.rows);
  }
}
